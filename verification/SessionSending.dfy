/**
 What a session sends of its own accord (client/src/peer/session.cpp): which datagrams every poll,
 punch, close and payload gives to the socket, to whom, with which numbers, and what they report back.
 */
module SessionSending {
  import opened Wrappers
  import opened SessionSpec

  // ---------------------------------------------------------------- what leaves, by index

  datatype Mail = Mail(body: Body, to: Endpoint)

  // The mail in order, under consecutive numbers; the socket answers for each datagram separately.
  function Sealed(c: Config, s: State, mail: seq<Mail>, now: nat): (ds: seq<Datagram>)
    ensures |ds| == |mail|
  {
    seq(|mail|, i requires 0 <= i < |mail| =>
      Datagram(now, mail[i].to, mail[i].body, (s.nextSeq + i) % TWO32, c.net(|s.out| + i), s.endpoint))
  }

  function Posted(c: Config, s: State, mail: seq<Mail>, now: nat): State {
    s.(nextSeq := (s.nextSeq + |mail|) % TWO32, out := s.out + Sealed(c, s, mail, now))
  }

  function ToAll(body: Body, to: seq<Endpoint>): (mail: seq<Mail>)
    ensures |mail| == |to|
  {
    seq(|to|, i requires 0 <= i < |to| => Mail(body, to[i]))
  }

  // The learned endpoint, or every candidate as long as none is.
  function Targets(c: Config, s: State): seq<Endpoint> {
    if s.endpoint.Some? then [s.endpoint.value] else c.candidates
  }

  lemma PostedNext(c: Config, s: State, first: seq<Mail>, second: seq<Mail>, now: nat)
    ensures Posted(c, Posted(c, s, first, now), second, now) == Posted(c, s, first + second, now)
  {
    SealedNext(c, s, first, second, now);
    hide Sealed;
    Wraps(s.nextSeq, |first|, |second|);
  }

  lemma SealedNext(c: Config, s: State, first: seq<Mail>, second: seq<Mail>, now: nat)
    ensures Sealed(c, s, first + second, now) == Sealed(c, s, first, now) + Sealed(c, Posted(c, s, first, now), second, now)
  {
    var both := Sealed(c, s, first + second, now);
    var apart := Sealed(c, s, first, now) + Sealed(c, Posted(c, s, first, now), second, now);
    forall i | 0 <= i < |both|
      ensures both[i] == apart[i]
    {
      if i >= |first| {
        NextNumber(c, s, first, second, now, i - |first|);
      }
    }
  }

  lemma NextNumber(c: Config, s: State, first: seq<Mail>, second: seq<Mail>, now: nat, k: nat)
    requires k < |second|
    ensures Sealed(c, Posted(c, s, first, now), second, now)[k] == Sealed(c, s, first + second, now)[|first| + k]
  {
    Wraps(s.nextSeq, |first|, k);
  }

  lemma Wraps(a: U32, m: nat, n: nat)
    ensures ((a + m) % TWO32 + n) % TWO32 == (a + (m + n)) % TWO32
  {
  }

  lemma PostedNothing(c: Config, s: State, now: nat)
    ensures Posted(c, s, [], now) == s
  {
  }

  lemma SendPosts(c: Config, s: State, body: Body, to: Endpoint, now: nat)
    requires LengthOk(body)
    ensures SendPacket(c, s, body, to, now) == (Posted(c, s, [Mail(body, to)], now), c.net(|s.out|))
  {
    assert Sealed(c, s, [Mail(body, to)], now) == [Datagram(now, to, body, s.nextSeq, c.net(|s.out|), s.endpoint)];
  }

  lemma {:induction false} SendEachPosts(c: Config, s: State, body: Body, to: seq<Endpoint>, now: nat)
    requires LengthOk(body)
    ensures SendEach(c, s, body, to, now) == Posted(c, s, ToAll(body, to), now)
    decreases |to|
  {
    hide SendPacket, LengthOk, Sealed, Posted;
    if to == [] {
      assert ToAll(body, to) == [];
      PostedNothing(c, s, now);
    } else {
      SendPosts(c, s, body, to[0], now);
      SendEachPosts(c, Posted(c, s, [Mail(body, to[0])], now), body, to[1..], now);
      PostedNext(c, s, [Mail(body, to[0])], ToAll(body, to[1..]), now);
      assert ToAll(body, to) == [Mail(body, to[0])] + ToAll(body, to[1..]);
    }
  }

  lemma SendToPeerPosts(c: Config, s: State, body: Body, now: nat)
    requires LengthOk(body)
    ensures SendToPeer(c, s, body, now) == Posted(c, s, ToAll(body, Targets(c, s)), now)
  {
    hide SendPacket, SendEach, LengthOk, Sealed, Posted;
    if s.endpoint.Some? {
      SendPosts(c, s, body, s.endpoint.value, now);
      assert ToAll(body, Targets(c, s)) == [Mail(body, s.endpoint.value)];
    } else {
      SendEachPosts(c, s, body, c.candidates, now);
    }
  }

  // ---------------------------------------------------------------- polling

  function HelloMail(c: Config): seq<Mail> {
    ToAll(Hello(c.attemptNonce, c.localVip), c.candidates)
  }

  predicate MayPing(s: State, now: nat) {
    Due(s.pingDue, now) && |LivePings(s.pings, now)| < MAX_PENDING_PINGS
  }

  // The timers that are due send in this order: a round of hellos, the keepalive, the ping.
  function PollMail(c: Config, s: State, now: nat): seq<Mail> {
    (if Due(s.helloDue, now) then HelloMail(c) else [])
    + (if Due(s.keepaliveDue, now) then ToAll(Keepalive, Targets(c, s)) else [])
    + (if MayPing(s, now) then ToAll(Ping(s.nextPing), Targets(c, s)) else [])
  }

  predicate NoTimers(s: State) {
    s.helloDue.None? && s.punchDue.None? && s.keepaliveDue.None? && s.pingDue.None? && s.idleDue.None?
  }

  // The session has ended at this moment, told so once, and sent just this mail.
  predicate Ended(c: Config, s: State, r: State, phase: Phase, mail: seq<Mail>, now: nat) {
    && r.terminal == Some(phase) && r.terminalSince == Some(now) && NoTimers(r) && r.probes == []
    && r.notes == s.notes + [Note(PhaseOf(s), phase)]
    && r.out == s.out + Sealed(c, s, mail, now) && r.nextSeq == (s.nextSeq + |mail|) % TWO32
    && r.inbox == s.inbox && r.retires == s.retires && r.lastGeneration == s.lastGeneration && LossOf(r) == LossOf(s)
  }

  function Goodbye(s: State, reason: Byte): seq<Mail> {
    if s.endpoint.Some? then [Mail(Close(reason), s.endpoint.value)] else []
  }

  // The state in which a session turns terminal, after its last mail and with what it records.
  predicate AboutToEnd(c: Config, s: State, t: State, mail: seq<Mail>, now: nat) {
    && t.out == s.out + Sealed(c, s, mail, now) && t.nextSeq == (s.nextSeq + |mail|) % TWO32
    && t.notes == s.notes && t.inbox == s.inbox && t.retires == s.retires && t.lastGeneration == s.lastGeneration
    && PhaseOf(t) == PhaseOf(s) && LossOf(t) == LossOf(s)
  }

  lemma TerminalEnds(c: Config, s: State, t: State, phase: Phase, mail: seq<Mail>, now: nat)
    requires AboutToEnd(c, s, t, mail, now)
    ensures Ended(c, s, EnterTerminal(t, phase, now), phase, mail, now)
  {
    hide Sealed, PhaseOf;
  }

  lemma GoodbyePosts(c: Config, s: State, t: State, reason: Byte, now: nat)
    requires t.out == s.out && t.nextSeq == s.nextSeq && t.endpoint == s.endpoint
    ensures (if t.endpoint.Some? then SendPacket(c, t, Close(reason), t.endpoint.value, now).0 else t) ==
            t.(out := s.out + Sealed(c, s, Goodbye(s, reason), now), nextSeq := (s.nextSeq + |Goodbye(s, reason)|) % TWO32)
  {
    hide SendPacket;
    assert Sealed(c, t, Goodbye(s, reason), now) == Sealed(c, s, Goodbye(s, reason), now);
    if s.endpoint.Some? {
      SendPosts(c, t, Close(reason), t.endpoint.value, now);
    }
  }

  lemma TerminalKeeps(s: State, phase: Phase, now: nat)
    ensures var r := EnterTerminal(s, phase, now);
            r.failure == s.failure && r.peerClose == s.peerClose && r.gotAck == s.gotAck && r.sentAck == s.sentAck
  {
  }

  lemma FailEnds(c: Config, s: State, failure: Failure, now: nat)
    ensures Ended(c, s, Fail(c, s, failure, now), Failed, Goodbye(s, 3), now)
    ensures Fail(c, s, failure, now).failure == Some(failure) && Fail(c, s, failure, now).peerClose == s.peerClose
  {
    hide SendPacket, Sealed, EnterTerminal, Ended;
    var s1 := StopTimers(s);
    GoodbyePosts(c, s, s1, 3, now);
    var s2 := if s1.endpoint.Some? then SendPacket(c, s1, Close(3), s1.endpoint.value, now).0 else s1;
    TerminalEnds(c, s, s2.(failure := Some(failure)), Failed, Goodbye(s, 3), now);
    TerminalKeeps(s2.(failure := Some(failure)), Failed, now);
  }

  lemma HelloRoundPosts(c: Config, s: State, now: nat)
    ensures HelloRound(c, s, now) == Posted(c, s, HelloMail(c), now)
  {
    hide SendEach, Sealed;
    SendEachPosts(c, s, Hello(c.attemptNonce, c.localVip), c.candidates, now);
  }

  function Later(due: Option<nat>, now: nat, interval: nat): Option<nat> {
    if Due(due, now) then Some(now + interval) else due
  }

  // The pings still waited for after the poll.
  function PolledPings(s: State, now: nat): map<nat, nat> {
    if !Due(s.pingDue, now) then s.pings
    else if |LivePings(s.pings, now)| >= MAX_PENDING_PINGS then LivePings(s.pings, now)
    else LivePings(s.pings, now)[s.nextPing := now]
  }

  // What a poll of a session that goes on leaves behind.
  predicate Polled(c: Config, s: State, r: State, now: nat) {
    && r.out == s.out + Sealed(c, s, PollMail(c, s, now), now)
    && r.nextSeq == (s.nextSeq + |PollMail(c, s, now)|) % TWO32
    && PolledTimers(s, r, now)
  }

  predicate PolledTimers(s: State, r: State, now: nat) {
    && r.helloDue == Later(s.helloDue, now, HELLO_RETRANSMIT) && r.punchDue == s.punchDue && r.idleDue == s.idleDue
    && r.keepaliveDue == Later(s.keepaliveDue, now, KEEPALIVE_INTERVAL)
    && r.pingDue == Later(s.pingDue, now, PING_INTERVAL)
    && r.pings == PolledPings(s, now)
    && r.nextPing == (if MayPing(s, now) then s.nextPing + 1 else s.nextPing)
  }

  function AfterHello(c: Config, s: State, now: nat): State {
    if Due(s.helloDue, now) then HelloRound(c, s, now).(helloDue := Some(now + HELLO_RETRANSMIT)) else s
  }

  function AfterKeepalive(c: Config, s: State, now: nat): State {
    if Due(s.keepaliveDue, now) then SendKeepalive(c, s, now) else s
  }

  lemma HelloStep(c: Config, s: State, now: nat)
    ensures var mail := if Due(s.helloDue, now) then HelloMail(c) else [];
            AfterHello(c, s, now) == Posted(c, s, mail, now).(helloDue := Later(s.helloDue, now, HELLO_RETRANSMIT))
  {
    hide HelloRound, Sealed;
    HelloRoundPosts(c, s, now);
    PostedNothing(c, s, now);
  }

  lemma KeepaliveStep(c: Config, s: State, now: nat)
    ensures var mail := if Due(s.keepaliveDue, now) then ToAll(Keepalive, Targets(c, s)) else [];
            AfterKeepalive(c, s, now) ==
            Posted(c, s, mail, now).(keepaliveDue := Later(s.keepaliveDue, now, KEEPALIVE_INTERVAL))
  {
    hide SendToPeer, Sealed;
    SendToPeerPosts(c, s, Keepalive, now);
    PostedNothing(c, s, now);
  }

  lemma PingStep(c: Config, s: State, now: nat)
    ensures var mail := if MayPing(s, now) then ToAll(Ping(s.nextPing), Targets(c, s)) else [];
            var r := if Due(s.pingDue, now) then SendPing(c, s, now) else s;
            && r.out == s.out + Sealed(c, s, mail, now) && r.nextSeq == (s.nextSeq + |mail|) % TWO32
            && r.pingDue == Later(s.pingDue, now, PING_INTERVAL) && r.pings == PolledPings(s, now)
            && r.nextPing == (if MayPing(s, now) then s.nextPing + 1 else s.nextPing)
  {
    hide SendToPeer, Sealed, LivePings;
    var s1 := s.(pingDue := Some(now + PING_INTERVAL), pings := LivePings(s.pings, now));
    var s2 := s1.(nextPing := s.nextPing + 1, pings := s1.pings[s.nextPing := now]);
    SendToPeerPosts(c, s2, Ping(s.nextPing), now);
    SealedFrame(c, s2, s, ToAll(Ping(s.nextPing), Targets(c, s)), now);
    PostedNothing(c, s, now);
  }

  lemma SealedFrame(c: Config, s: State, t: State, mail: seq<Mail>, now: nat)
    requires s.out == t.out && s.nextSeq == t.nextSeq && s.endpoint == t.endpoint
    ensures Sealed(c, s, mail, now) == Sealed(c, t, mail, now)
  {
  }

  lemma PeriodicInSteps(c: Config, s: State, now: nat)
    ensures var s2 := AfterKeepalive(c, AfterHello(c, s, now), now);
            PollPeriodic(c, s, now) == if Due(s2.pingDue, now) then SendPing(c, s2, now) else s2
  {
    hide HelloRound, SendKeepalive, SendPing;
  }

  lemma PeriodicPolls(c: Config, s: State, now: nat)
    ensures Polled(c, s, PollPeriodic(c, s, now), now)
  {
    hide AfterHello, AfterKeepalive, SendPing, Sealed, ToAll, HelloMail, PollMail, LivePings, Later, Posted;
    var s1 := AfterHello(c, s, now);
    var s2 := AfterKeepalive(c, s1, now);
    PeriodicMail(c, s, s1, s2, now);
    PeriodicInSteps(c, s, now);
  }

  lemma SamePings(s: State, t: State, now: nat)
    ensures s.pingDue == t.pingDue && s.pings == t.pings && s.nextPing == t.nextPing ==>
              MayPing(s, now) == MayPing(t, now) && PolledPings(s, now) == PolledPings(t, now)
  {
  }

  lemma PeriodicMail(c: Config, s: State, s1: State, s2: State, now: nat)
    requires s1 == AfterHello(c, s, now) && s2 == AfterKeepalive(c, s1, now)
    ensures Polled(c, s, if Due(s2.pingDue, now) then SendPing(c, s2, now) else s2, now)
  {
    hide AfterHello, AfterKeepalive, SendPing, Sealed, ToAll, HelloMail, MayPing, PolledPings, Later, Due, PolledTimers;
    SamePings(s, s2, now);
    PeriodicTimers(c, s, s1, s2, now);
    HelloStep(c, s, now);
    KeepaliveStep(c, s1, now);
    PingStep(c, s2, now);
    var hello := if Due(s.helloDue, now) then HelloMail(c) else [];
    var alive := if Due(s.keepaliveDue, now) then ToAll(Keepalive, Targets(c, s)) else [];
    var ping := if MayPing(s, now) then ToAll(Ping(s.nextPing), Targets(c, s)) else [];
    ThreePosts(c, s, s1, s2, hello, alive, ping, now);
  }

  lemma PeriodicTimers(c: Config, s: State, s1: State, s2: State, now: nat)
    requires s1 == AfterHello(c, s, now) && s2 == AfterKeepalive(c, s1, now)
    ensures PolledTimers(s, if Due(s2.pingDue, now) then SendPing(c, s2, now) else s2, now)
  {
    hide AfterHello, AfterKeepalive, SendPing, Sealed, ToAll, HelloMail, MayPing, PolledPings, Later, Due;
    SamePings(s, s2, now);
    HelloStep(c, s, now);
    KeepaliveStep(c, s1, now);
    PingStep(c, s2, now);
  }

  lemma ThreePosts(c: Config, s: State, s1: State, s2: State, x: seq<Mail>, y: seq<Mail>, z: seq<Mail>, now: nat)
    requires s1.out == Posted(c, s, x, now).out && s1.nextSeq == Posted(c, s, x, now).nextSeq && s1.endpoint == s.endpoint
    requires s2.out == Posted(c, s1, y, now).out && s2.nextSeq == Posted(c, s1, y, now).nextSeq && s2.endpoint == s.endpoint
    ensures s2.out + Sealed(c, s2, z, now) == s.out + Sealed(c, s, x + y + z, now)
    ensures (s2.nextSeq + |z|) % TWO32 == (s.nextSeq + |x + y + z|) % TWO32
  {
    hide Sealed;
    PostedNext(c, s, x, y, now);
    PostedNext(c, s, x + y, z, now);
    SealedFrame(c, s1, Posted(c, s, x, now), y, now);
    SealedFrame(c, s2, Posted(c, s, x + y, now), z, now);
  }

  // Main result: what a poll does, and every datagram it sends: an attempt whose time is up fails with the
  // cause its evidence names, a connection gone silent is dropped, and otherwise each timer that is due
  // sends its own datagrams and starts again.
  lemma PollMeans(c: Config, s: State, now: nat)
    ensures var r := Poll(c, s, now);
            && (!Active(s) ==> r == s)
            && (Active(s) && Due(s.punchDue, now) ==>
                  Ended(c, s, r, Failed, Goodbye(s, 3), now)
                  && r.failure == Some(if s.gotAck || s.sentAck then PeerHandshakeFailed else HolePunchTimeout))
            && (Active(s) && !Due(s.punchDue, now) && Due(s.idleDue, now) ==>
                  Ended(c, s, r, Failed, Goodbye(s, 3), now) && r.failure == Some(TunnelDropped))
            && (Active(s) && !Due(s.punchDue, now) && !Due(s.idleDue, now) ==>
                  Polled(c, s, r, now) && PhaseOf(r) == PhaseOf(s) && r.notes == s.notes && r.inbox == s.inbox)
  {
    hide PollPeriodic, Fail, LiveProbes, Ended, Polled, Sealed, Due;
    var s1 := ExpireProbes(s, now);
    if Active(s) {
      var failure := if s1.gotAck || s1.sentAck then PeerHandshakeFailed else HolePunchTimeout;
      FailEnds(c, s1, failure, now);
      FailEnds(c, s1, TunnelDropped, now);
      PeriodicPolls(c, s1, now);
      EndedFrame(c, s1, s, Fail(c, s1, failure, now), now);
      EndedFrame(c, s1, s, Fail(c, s1, TunnelDropped, now), now);
      PolledFrame(c, s1, s, PollPeriodic(c, s1, now), now);
    }
  }

  lemma EndedFrame(c: Config, s: State, t: State, r: State, now: nat)
    requires s == t.(probes := s.probes)
    ensures Goodbye(s, 3) == Goodbye(t, 3)
    ensures Ended(c, s, r, Failed, Goodbye(s, 3), now) == Ended(c, t, r, Failed, Goodbye(t, 3), now)
  {
    hide Sealed;
    SealedFrame(c, s, t, Goodbye(s, 3), now);
  }

  lemma PolledFrame(c: Config, s: State, t: State, r: State, now: nat)
    requires s == t.(probes := s.probes)
    ensures Polled(c, s, r, now) == Polled(c, t, r, now)
    ensures PhaseOf(s) == PhaseOf(t)
  {
    hide Sealed, LivePings;
    SealedFrame(c, s, t, PollMail(c, s, now), now);
  }

  // ---------------------------------------------------------------- the owner's calls

  // A first punch of a live attempt sends one round of hellos and starts both timers, unless the session is
  // connected already; every other call changes nothing but the note that punching has begun.
  lemma StartPunchMeans(c: Config, s: State, now: nat)
    ensures var (r, ok) := StartPunch(c, s, now);
            var punches := Active(s) && !s.punchStarted && PhaseOf(s) != Connected;
            && ok == punches
            && (!Active(s) || s.punchStarted ==> r == s)
            && (Active(s) ==> r.punchStarted)
            && r.out == s.out + Sealed(c, s, if punches then HelloMail(c) else [], now)
            && r.helloDue == (if punches then Some(now + HELLO_RETRANSMIT) else s.helloDue)
            && r.punchDue == (if punches then Some(now + PUNCH_DEADLINE) else s.punchDue)
            && PhaseOf(r) == PhaseOf(s) && r.notes == s.notes
  {
    hide HelloRound, Sealed, HelloMail;
    var s1 := s.(punchStarted := true);
    HelloRoundPosts(c, s1, now);
    SealedFrame(c, s1, s, HelloMail(c), now);
    PostedNothing(c, s, now);
  }

  // A user closing a live session tells a learned peer, with the reason its phase gives, and ends.
  lemma CloseMeans(c: Config, s: State, now: nat)
    ensures var r := CloseByUser(c, s, now);
            && (!Active(s) ==> r == s)
            && (Active(s) ==> Ended(c, s, r, Closed, Goodbye(s, if PhaseOf(s) == Connected then 0 else 1), now)
                              && r.failure == s.failure && r.peerClose == s.peerClose)
  {
    hide SendPacket, Sealed, EnterTerminal, Ended;
    var reason: Byte := if PhaseOf(s) == Connected then 0 else 1;
    GoodbyePosts(c, s, s, reason, now);
    var s1 := if s.endpoint.Some? then SendPacket(c, s, Close(reason), s.endpoint.value, now).0 else s;
    if Active(s) {
      TerminalEnds(c, s, s1, Closed, Goodbye(s, reason), now);
      TerminalKeeps(s1, Closed, now);
    }
  }

  // A payload goes to the learned endpoint, or to the candidates in order up to the first the socket refuses.
  // The caller is told yes exactly when every one of them was taken.
  predicate Carried(c: Config, s: State, inner: seq<Byte>, to: seq<Endpoint>, r: State, ok: bool, now: nat) {
    var sent := |r.out| - |s.out|;
    if to == [] then r == s && ok
    else if !LengthOk(Data(inner)) then r == s.(nextSeq := (s.nextSeq + 1) % TWO32) && !ok
    else
      && 1 <= sent <= |to| && r == Posted(c, s, ToAll(Data(inner), to[..sent]), now)
      && (forall k | |s.out| <= k < |r.out| - 1 :: c.net(k))
      && (if ok then sent == |to| && c.net(|r.out| - 1) else !c.net(|r.out| - 1))
  }

  lemma TooLong(c: Config, s: State, inner: seq<Byte>, to: Endpoint, now: nat)
    requires !LengthOk(Data(inner))
    ensures SendPacket(c, s, Data(inner), to, now) == (s.(nextSeq := (s.nextSeq + 1) % TWO32), false)
  {
  }

  lemma {:induction false} SendWhileTakenMeans(c: Config, s: State, inner: seq<Byte>, to: seq<Endpoint>, now: nat)
    ensures var (r, ok) := SendWhileTaken(c, s, Data(inner), to, now);
            Carried(c, s, inner, to, r, ok, now)
    decreases |to|
  {
    hide Sealed, LengthOk, SendPacket;
    if to != [] {
      if !LengthOk(Data(inner)) {
        TooLong(c, s, inner, to[0], now);
      } else {
        SendPosts(c, s, Data(inner), to[0], now);
        var s1 := Posted(c, s, [Mail(Data(inner), to[0])], now);
        assert ToAll(Data(inner), to[..1]) == [Mail(Data(inner), to[0])];
        if c.net(|s.out|) && |to| > 1 {
          SendWhileTakenMeans(c, s1, inner, to[1..], now);
          var (r, ok) := SendWhileTaken(c, s1, Data(inner), to[1..], now);
          CarriedNext(c, s, s1, inner, to, r, ok, now);
        }
      }
    }
  }

  lemma CarriedNext(c: Config, s: State, s1: State, inner: seq<Byte>, to: seq<Endpoint>, r: State, ok: bool, now: nat)
    requires |to| > 1 && LengthOk(Data(inner)) && s1 == Posted(c, s, [Mail(Data(inner), to[0])], now) && c.net(|s.out|)
    requires Carried(c, s1, inner, to[1..], r, ok, now)
    ensures Carried(c, s, inner, to, r, ok, now)
  {
    hide Sealed, LengthOk;
    var more := |r.out| - |s1.out|;
    PostedNext(c, s, [Mail(Data(inner), to[0])], ToAll(Data(inner), to[1..][..more]), now);
    assert ToAll(Data(inner), to[..more + 1]) == [Mail(Data(inner), to[0])] + ToAll(Data(inner), to[1..][..more]);
  }

  lemma SendDataMeans(c: Config, s: State, inner: seq<Byte>, now: nat)
    ensures var (r, ok) := SendData(c, s, inner, now);
            Carried(c, s, inner, Targets(c, s), r, ok, now)
  {
    hide SendPacket, SendWhileTaken, Sealed;
    if s.endpoint.Some? {
      if LengthOk(Data(inner)) {
        SendPosts(c, s, Data(inner), s.endpoint.value, now);
        assert ToAll(Data(inner), Targets(c, s)[..1]) == [Mail(Data(inner), s.endpoint.value)];
      } else {
        TooLong(c, s, inner, s.endpoint.value, now);
      }
    } else {
      SendWhileTakenMeans(c, s, inner, c.candidates, now);
    }
  }
}
