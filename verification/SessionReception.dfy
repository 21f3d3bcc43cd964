/**
 What a received packet does to a session (client/src/peer/session.cpp): for every state and packet, which
 packets are accepted, what reaches the sink, what is answered and to whom, which evidence and which endpoint
 are gained, and why each of the others is dropped.
 */
module SessionReception {
  import opened Wrappers
  import opened SessionSpec
  import opened SessionSending
  import R = Replay
  import I = Ipv4
  import P = Packet

  // ---------------------------------------------------------------- which packets count

  predicate IsLive(q: Probe, now: nat) {
    now < q.registered + PROBE_TTL
  }

  predicate Echoes(q: Probe, p: RxPacket, now: nat)
    requires p.body.HelloAck?
  {
    q.nonce == p.body.nonce && q.to == p.from && IsLive(q, now)
  }

  // The packet is the echo of a path probe that is still waited for.
  predicate AnswersProbe(s: State, p: RxPacket, now: nat) {
    p.body.HelloAck? && exists i | 0 <= i < |s.probes| :: Echoes(s.probes[i], p, now)
  }

  // The hello of a peer that has begun again, within the limits on doing so.
  predicate Renegotiates(c: Config, s: State, p: RxPacket, now: nat) {
    && p.body.Hello? && p.body.virtualIp == c.peerVip
    && s.pinned.Some? && s.pinned.value != p.epoch
    && (s.lastRenegotiation.Some? ==> s.lastRenegotiation.value + MIN_RENEG_INTERVAL <= now)
    && s.renegotiations < MAX_RENEGOTIATIONS
  }

  predicate MayPin(s: State, p: RxPacket) {
    s.pinned.None? || s.pinned.value == p.epoch
  }

  // The packet belongs to the attempt this session is in.
  predicate FromPeer(c: Config, s: State, p: RxPacket, now: nat) {
    match p.body
    case Hello(_, vip) => vip == c.peerVip && MayPin(s, p)
    case HelloAck(nonce, vip) =>
      vip == c.peerVip && if AnswersProbe(s, p, now) then s.pinned == Some(p.epoch) else nonce == c.attemptNonce && MayPin(s, p)
    case _ => s.pinned == Some(p.epoch)
  }

  predicate IsNew(s: State, p: RxPacket) {
    R.Check(s.window, p.number).Accepted()
  }

  predicate WellFormed(c: Config, s: State, p: RxPacket, now: nat) {
    match p.body
    case Data(inner) => PhaseOf(s) == Connected && I.InnerVerdict(inner, c.peerVip, c.localVip) == I.InnerOk
    case Pong(id) => id in s.pings && now < s.pings[id] + PENDING_PING_TTL
    case Close(reason) => reason <= 3
    case Roster(payload) => P.DecodeRoster(payload, RosterContextOf(c, s)).RosterOk?
    case _ => true
  }

  predicate Counts(c: Config, s: State, p: RxPacket, now: nat) {
    Active(s) && FromPeer(c, s, p, now) && IsNew(s, p)
  }

  predicate Accepts(c: Config, s: State, p: RxPacket, now: nat) {
    Counts(c, s, p, now) && WellFormed(c, s, p, now)
  }

  // ---------------------------------------------------------------- the gate

  lemma {:induction false} FindLive(probes: seq<Probe>, p: RxPacket, now: nat)
    requires p.body.HelloAck?
    ensures FindProbe(LiveProbes(probes, now), p.body.nonce, p.from, 0).Some? <==>
            exists i | 0 <= i < |probes| :: Echoes(probes[i], p, now)
  {
    LiveAre(probes, now);
    var live := LiveProbes(probes, now);
    var found := FindProbe(live, p.body.nonce, p.from, 0);
    if found.Some? {
      assert live[found.value] in live;
      var i :| 0 <= i < |probes| && probes[i] == live[found.value];
      assert Echoes(probes[i], p, now);
    } else {
      forall i | 0 <= i < |probes|
        ensures !Echoes(probes[i], p, now)
      {
        assert probes[i] in live <==> IsLive(probes[i], now);
      }
    }
  }

  lemma {:induction false} LiveAre(probes: seq<Probe>, now: nat)
    ensures forall q :: q in LiveProbes(probes, now) <==> q in probes && IsLive(q, now)
  {
    if probes != [] {
      LiveAre(probes[1..], now);
      forall q
        ensures q in LiveProbes(probes, now) <==> q in probes && IsLive(q, now)
      {
        assert q in probes <==> q == probes[0] || q in probes[1..];
      }
    }
  }

  // What the source and epoch checks decide.
  lemma GateDecides(c: Config, s: State, p: RxPacket, now: nat)
    ensures var (s1, gate) := EpochGate(c, s, p, now);
            if Renegotiates(c, s, p, now) then
              s1 == Renegotiate(c, s, p.epoch, p.body.nonce, p.from, now) && gate == Go(true, None)
            else
              && s1 == s.(probes := if p.body.HelloAck? && p.body.virtualIp == c.peerVip then LiveProbes(s.probes, now) else s.probes)
              && (gate.Go? <==> FromPeer(c, s, p, now))
              && (gate.Go? ==> !gate.renegotiated && (gate.probe.Some? <==> AnswersProbe(s, p, now))
                               && (gate.probe.Some? ==> gate.probe.value < |s1.probes|))
  {
    hide Renegotiate, LiveProbes;
    if p.body.HelloAck? {
      FindLive(s.probes, p, now);
    }
  }

  // ---------------------------------------------------------------- the fields of an accepted packet

  predicate Answers(p: RxPacket, probe: Option<nat>) {
    p.body.HelloAck? && probe.None?
  }

  predicate SameHistory(s: State, r: State) {
    && r.failure == s.failure && r.window == s.window && r.retires == s.retires
    && r.renegotiations == s.renegotiations && r.lastRenegotiation == s.lastRenegotiation && r.punchStarted == s.punchStarted
  }

  // What the packet changes, with s the state that has counted it.
  predicate Moved(c: Config, s: State, p: RxPacket, probe: Option<nat>, advanced: bool, r: State) {
    && r.inbox == s.inbox + (if p.body.Data? && c.hasSink then [p.body.inner] else [])
    && r.gotAck == (s.gotAck || (Answers(p, probe) && PhaseOf(s) != Connected))
    && r.pinned == (if s.pinned.None? then Some(p.epoch) else s.pinned)
    && r.endpoint == (if advanced && (probe.Some? || IsVerified(c, s, p.from)) then Some(p.from) else s.endpoint)
    && r.pings == (if p.body.Pong? then s.pings - {p.body.id} else s.pings)
    && HoldsRoster(c, s, p, r)
    && SameHistory(s, r)
  }

  // The generation held afterwards is that of the roster just accepted, or the one held before.
  predicate HoldsRoster(c: Config, s: State, p: RxPacket, r: State) {
    if p.body.Roster? && P.DecodeRoster(p.body.payload, RosterContextOf(c, s)).RosterOk? then
      r.lastGeneration == Some(P.DecodeRoster(p.body.payload, RosterContextOf(c, s)).roster.generation)
    else r.lastGeneration == s.lastGeneration
  }

  predicate SameEnding(s: State, r: State) {
    r.peerClose == s.peerClose && r.terminal == s.terminal && r.terminalSince == s.terminalSince
  }

  predicate Admitted(c: Config, s: State, p: RxPacket, probe: Option<nat>, advanced: bool, r: State) {
    && r.inbox == s.inbox && r.gotAck == s.gotAck && r.sentAck == s.sentAck && r.pings == s.pings
    && r.lastGeneration == s.lastGeneration && SameHistory(s, r) && SameEnding(s, r)
    && r.pinned == (if s.pinned.None? then Some(p.epoch) else s.pinned)
    && r.endpoint == (if advanced && (probe.Some? || IsVerified(c, s, p.from)) then Some(p.from) else s.endpoint)
  }

  lemma AdmitMoves(c: Config, s: State, p: RxPacket, probe: Option<nat>, advanced: bool, now: nat)
    requires probe.Some? ==> probe.value < |s.probes|
    ensures Admitted(c, s, p, probe, advanced, Admit(c, s, p, probe, advanced, now))
  {
    hide PhaseOf;
  }

  predicate Acted(c: Config, s: State, p: RxPacket, probe: Option<nat>, before: Phase, r: State) {
    && ActedOnFlags(c, s, p, probe, before, r)
    && r.pings == (if p.body.Pong? then s.pings - {p.body.id} else s.pings)
    && HoldsRoster(c, s, p, r)
    && KeepsRest(s, r)
  }

  predicate ActedOnFlags(c: Config, s: State, p: RxPacket, probe: Option<nat>, before: Phase, r: State) {
    && r.inbox == s.inbox + (if p.body.Data? && c.hasSink then [p.body.inner] else [])
    && r.gotAck == (s.gotAck || (Answers(p, probe) && before != Connected))
  }

  lemma ActMovesFlags(c: Config, s: State, p: RxPacket, probe: Option<nat>, before: Phase, now: nat)
    requires !p.body.Close?
    ensures ActedOnFlags(c, s, p, probe, before, Act(c, s, p, probe, before, now))
  {
    hide SendHelloAck, SpendFor, SendPacket, P.DecodeRoster;
  }

  predicate KeepsRest(s: State, r: State) {
    r.pinned == s.pinned && r.endpoint == s.endpoint && SameHistory(s, r) && SameEnding(s, r)
  }

  lemma ActMoves(c: Config, s: State, p: RxPacket, probe: Option<nat>, before: Phase, now: nat)
    requires !p.body.Close?
    ensures Acted(c, s, p, probe, before, Act(c, s, p, probe, before, now))
  {
    hide HoldsRoster, KeepsRest, ActedOnFlags;
    ActMovesFlags(c, s, p, probe, before, now);
    ActHoldsRoster(c, s, p, probe, before, now);
    ActKeepsRest(c, s, p, probe, before, now);
    hide SendHelloAck, SpendFor, SendPacket, P.DecodeRoster;
  }

  lemma ActKeepsRest(c: Config, s: State, p: RxPacket, probe: Option<nat>, before: Phase, now: nat)
    requires !p.body.Close?
    ensures KeepsRest(s, Act(c, s, p, probe, before, now))
  {
    hide Act;
  }

  lemma ActHoldsRoster(c: Config, s: State, p: RxPacket, probe: Option<nat>, before: Phase, now: nat)
    requires !p.body.Close?
    ensures HoldsRoster(c, s, p, Act(c, s, p, probe, before, now))
  {
    hide SendHelloAck, SpendFor, SendPacket, P.DecodeRoster;
  }

  // Settling and probing touch none of what the packet itself changes.
  predicate SameEvidence(s: State, r: State) {
    && SameFlags(s, r) && r.pings == s.pings && r.lastGeneration == s.lastGeneration && KeepsRest(s, r)
  }

  predicate SameFlags(s: State, r: State) {
    r.inbox == s.inbox && r.gotAck == s.gotAck && r.sentAck == s.sentAck
  }

  lemma SettleHolds(c: Config, s: State, before: Phase, now: nat)
    ensures SameEvidence(s, Settle(c, s, before, now))
  {
    hide EnterConnected, PhaseOf, KeepsRest, SameFlags;
    SettleKeepsRest(c, s, before, now);
    SettleKeepsFlags(c, s, before, now);
    var after := PhaseOf(s);
    if after != before {
      var s1 := if after == Connected then EnterConnected(c, s, now) else s;
      var r := s1.(notes := s1.notes + [Note(before, after)]);
      assert Settle(c, s, before, now) == r;
      hide Settle;
    }
  }

  lemma SettleKeepsFlags(c: Config, s: State, before: Phase, now: nat)
    ensures SameFlags(s, Settle(c, s, before, now))
  {
    hide EnterConnected, PhaseOf;
    var after := PhaseOf(s);
    if after != before {
      var s1 := if after == Connected then EnterConnected(c, s, now) else s;
      var r := s1.(notes := s1.notes + [Note(before, after)]);
      assert Settle(c, s, before, now) == r;
      hide Settle;
    }
  }

  lemma SettleKeepsRest(c: Config, s: State, before: Phase, now: nat)
    ensures KeepsRest(s, Settle(c, s, before, now))
  {
    hide EnterConnected, PhaseOf;
    var after := PhaseOf(s);
    if after != before {
      var s1 := if after == Connected then EnterConnected(c, s, now) else s;
      var r := s1.(notes := s1.notes + [Note(before, after)]);
      assert Settle(c, s, before, now) == r;
      hide Settle;
    }
  }

  lemma ProbeHolds(c: Config, s: State, from: Endpoint, now: nat)
    ensures SameEvidence(s, StartPathProbe(c, s, from, now))
  {
  }

  lemma MovedInParts(c: Config, s: State, s1: State, s2: State, s3: State, r: State, p: RxPacket, probe: Option<nat>, advanced: bool)
    requires Admitted(c, s, p, probe, advanced, s1) && Acted(c, s1, p, probe, PhaseOf(s), s2)
    requires SameEvidence(s2, s3) && SameEvidence(s3, r)
    ensures Moved(c, s, p, probe, advanced, r) && SameEnding(s, r)
  {
    hide P.DecodeRoster;
  }

  lemma SameAsItself(s: State)
    ensures SameEvidence(s, s)
  {
  }

  lemma EffectsMove(c: Config, s: State, p: RxPacket, probe: Option<nat>, advanced: bool, now: nat)
    requires (probe.Some? ==> probe.value < |s.probes|) && !p.body.Close?
    ensures var (r, drop) := Effects(c, s, p, probe, advanced, now);
            && Moved(c, s, p, probe, advanced, r) && SameEnding(s, r)
            && drop == if p.body.Data? && !c.hasSink then Some(DropNoSink) else None
  {
    hide Admit, Act, Settle, StartPathProbe, PhaseOf, Admitted, Acted, SameEvidence, SameEnding, SameHistory, Moved, IsVerified;
    var before := PhaseOf(s);
    var s1 := Admit(c, s, p, probe, advanced, now);
    AdmitMoves(c, s, p, probe, advanced, now);
    var s2 := Act(c, s1, p, probe, before, now);
    ActMoves(c, s1, p, probe, before, now);
    ProbeHolds(c, s2, p.from, now);
    SameAsItself(s2);
    var s3 := if probe.None? && advanced && !IsVerified(c, s, p.from) then StartPathProbe(c, s2, p.from, now) else s2;
    SettleHolds(c, s3, before, now);
    MovedInParts(c, s, s1, s2, s3, Settle(c, s3, before, now), p, probe, advanced);
  }

  // ---------------------------------------------------------------- the answers to an accepted packet

  function TokensAt(s: State, now: nat): Tokens {
    Refilled(s.budget, s.budgetAt, now)
  }

  // A datagram to an address nobody has vouched for costs a token.
  predicate Payable(c: Config, s: State, to: Endpoint, now: nat, spent: nat) {
    IsVerified(c, s, to) || TokensAt(s, now) >= spent + TOKEN_COST
  }

  function Price(c: Config, s: State, mail: seq<Mail>): nat {
    if mail == [] || IsVerified(c, s, mail[0].to) then 0 else TOKEN_COST
  }

  // A ping is answered with its own id and a hello with its own nonce, each to where it came from.
  function ReplyMail(c: Config, s: State, p: RxPacket, now: nat): seq<Mail> {
    if !Payable(c, s, p.from, now, 0) then []
    else if p.body.Ping? then [Mail(Pong(p.body.id), p.from)]
    else if p.body.Hello? then [Mail(HelloAck(p.body.nonce, c.localVip), p.from)]
    else []
  }

  // A source of the newest packet that is not vouched for is probed, while a nonce, a slot and a token are left.
  predicate Searches(c: Config, s: State, p: RxPacket, probe: Option<nat>, advanced: bool) {
    probe.None? && advanced && !IsVerified(c, s, p.from)
  }

  predicate MayProbe(c: Config, s: State, to: Endpoint, now: nat) {
    !HasProbeTo(LiveProbes(s.probes, now), to) && |LiveProbes(s.probes, now)| < MAX_PROBE_PATHS
  }

  function ProbeMail(c: Config, s: State, to: Endpoint, now: nat, spent: nat): seq<Mail> {
    if MayProbe(c, s, to, now) && c.draw(s.draws).Some? && Payable(c, s, to, now, spent)
    then [Mail(Hello(c.draw(s.draws).value, c.localVip), to)] else []
  }

  // Between these states just this mail has left, in the name of this endpoint.
  predicate Sent(c: Config, s: State, r: State, learned: Option<Endpoint>, mail: seq<Mail>, now: nat) {
    && r.out == s.out + Sealed(c, s.(endpoint := learned), mail, now)
    && r.nextSeq == (s.nextSeq + |mail|) % TWO32
  }

  lemma SentThen(c: Config, s: State, s1: State, r: State, learned: Option<Endpoint>, first: seq<Mail>, second: seq<Mail>, now: nat)
    requires Sent(c, s, s1, learned, first, now) && Sent(c, s1, r, learned, second, now)
    ensures Sent(c, s, r, learned, first + second, now)
  {
    hide Sealed;
    var t := s.(endpoint := learned);
    PostedNext(c, t, first, second, now);
    SealedFrame(c, s1.(endpoint := learned), Posted(c, t, first, now), second, now);
  }

  lemma SentOne(c: Config, s: State, body: Body, to: Endpoint, now: nat)
    requires LengthOk(body)
    ensures Sent(c, s, SendPacket(c, s, body, to, now).0, s.endpoint, [Mail(body, to)], now)
    ensures SendPacket(c, s, body, to, now).1 == c.net(|s.out|)
  {
    hide Sealed, SendPacket;
    SendPosts(c, s, body, to, now);
    assert s.(endpoint := s.endpoint) == s;
  }

  lemma SentNothing(c: Config, s: State, r: State, now: nat)
    requires r.out == s.out && r.nextSeq == s.nextSeq
    ensures forall learned :: Sent(c, s, r, learned, [], now)
  {
  }

  lemma SpendMeans(c: Config, s: State, to: Endpoint, now: nat)
    ensures var (r, ok) := SpendFor(c, s, to, now);
            && r == s.(budget := r.budget, budgetAt := r.budgetAt)
            && (ok <==> Payable(c, s, to, now, 0))
            && TokensAt(r, now) == TokensAt(s, now) - if ok && !IsVerified(c, s, to) then TOKEN_COST else 0
  {
  }

  lemma SentAs(c: Config, s: State, r: State, r2: State, learned: Option<Endpoint>, mail: seq<Mail>, now: nat)
    requires Sent(c, s, r, learned, mail, now) && r2.out == r.out && r2.nextSeq == r.nextSeq
    ensures Sent(c, s, r2, learned, mail, now)
  {
    hide Sealed;
  }

  lemma AckSends(c: Config, s: State, echo: Nonce, to: Endpoint, now: nat)
    ensures var r := SendHelloAck(c, s, echo, to, now);
            var mail := if Payable(c, s, to, now, 0) then [Mail(HelloAck(echo, c.localVip), to)] else [];
            && Sent(c, s, r, s.endpoint, mail, now)
            && TokensAt(r, now) == TokensAt(s, now) - Price(c, s, mail)
            && r.sentAck == (s.sentAck || (mail != [] && c.net(|s.out|)))
  {
    hide SpendFor, SendPacket, Sent, IsVerified, Refilled;
    var s1 := SpendFor(c, s, to, now).0;
    SpendMeans(c, s, to, now);
    SentOne(c, s1, HelloAck(echo, c.localVip), to, now);
    SentNothing(c, s, s1, now);
    var s2 := SendPacket(c, s1, HelloAck(echo, c.localVip), to, now).0;
    SentFrame(c, s, s1, s2, s.endpoint, [Mail(HelloAck(echo, c.localVip), to)], now);
    if Payable(c, s, to, now, 0) {
      SentAs(c, s, s2, SendHelloAck(c, s, echo, to, now), s.endpoint, [Mail(HelloAck(echo, c.localVip), to)], now);
    }
  }

  lemma SentFrame(c: Config, s: State, t: State, r: State, learned: Option<Endpoint>, mail: seq<Mail>, now: nat)
    requires s.out == t.out && s.nextSeq == t.nextSeq
    ensures Sent(c, s, r, learned, mail, now) == Sent(c, t, r, learned, mail, now)
  {
    hide Sealed;
    SealedFrame(c, s.(endpoint := learned), t.(endpoint := learned), mail, now);
  }

  // What the action of the type sends and pays.
  predicate Replied(c: Config, s: State, p: RxPacket, r: State, now: nat) {
    && Sent(c, s, r, s.endpoint, ReplyMail(c, s, p, now), now)
    && TokensAt(r, now) == TokensAt(s, now) - Price(c, s, ReplyMail(c, s, p, now))
    && r.sentAck == (s.sentAck || (p.body.Hello? && ReplyMail(c, s, p, now) != [] && c.net(|s.out|)))
  }

  lemma PongSends(c: Config, s: State, id: nat, to: Endpoint, now: nat)
    ensures var (s1, may) := SpendFor(c, s, to, now);
            var r := if may then SendPacket(c, s1, Pong(id), to, now).0 else s1;
            var mail := if Payable(c, s, to, now, 0) then [Mail(Pong(id), to)] else [];
            && Sent(c, s, r, s.endpoint, mail, now)
            && TokensAt(r, now) == TokensAt(s, now) - Price(c, s, mail)
            && r.sentAck == s.sentAck
  {
    hide SpendFor, SendPacket, Sent, IsVerified, Refilled;
    var s1 := SpendFor(c, s, to, now).0;
    SpendMeans(c, s, to, now);
    SentOne(c, s1, Pong(id), to, now);
    SentNothing(c, s, s1, now);
    SentFrame(c, s, s1, SendPacket(c, s1, Pong(id), to, now).0, s.endpoint, [Mail(Pong(id), to)], now);
  }

  lemma QuietAct(c: Config, s: State, p: RxPacket, probe: Option<nat>, before: Phase, now: nat)
    requires !p.body.Close? && !p.body.Hello? && !p.body.Ping?
    ensures var r := Act(c, s, p, probe, before, now);
            r.out == s.out && r.nextSeq == s.nextSeq && r.budget == s.budget && r.budgetAt == s.budgetAt && r.sentAck == s.sentAck
  {
    hide P.DecodeRoster;
  }

  lemma ActReplies(c: Config, s: State, p: RxPacket, probe: Option<nat>, before: Phase, now: nat)
    requires !p.body.Close?
    ensures Replied(c, s, p, Act(c, s, p, probe, before, now), now)
  {
    hide SendHelloAck, SpendFor, SendPacket, Sent, IsVerified, Refilled;
    if p.body.Hello? {
      AckSends(c, s, p.body.nonce, p.from, now);
    } else if p.body.Ping? {
      PongSends(c, s, p.body.id, p.from, now);
    } else {
      QuietAct(c, s, p, probe, before, now);
      SentNothing(c, s, Act(c, s, p, probe, before, now), now);
      hide Act;
    }
  }

  // What a search for a path sends, pays and remembers.
  predicate Searched(c: Config, s: State, to: Endpoint, r: State, now: nat) {
    var mail := ProbeMail(c, s, to, now, 0);
    && Sent(c, s, r, s.endpoint, mail, now)
    && TokensAt(r, now) == TokensAt(s, now) - Price(c, s, mail)
    && r.probes == LiveProbes(s.probes, now) + (if mail == [] then [] else [Probe(to, mail[0].body.nonce, now, false)])
    && r.draws == s.draws + if MayProbe(c, s, to, now) then 1 else 0
  }

  lemma VerifiedStill(c: Config, s: State, r: State, to: Endpoint)
    requires r.endpoint == s.endpoint
    ensures IsVerified(c, r, to) == IsVerified(c, s, to)
  {
  }

  lemma SearchMeans(c: Config, s: State, to: Endpoint, now: nat)
    ensures Searched(c, s, to, StartPathProbe(c, s, to, now), now)
  {
    hide LiveProbes, HasProbeTo, Register, Sent, IsVerified, Refilled, Sealed;
    var r := StartPathProbe(c, s, to, now);
    var s0 := ExpireProbes(s, now);
    var nonce := c.draw(s.draws);
    if MayProbe(c, s, to, now) && nonce.Some? {
      var s1 := s0.(draws := s0.draws + 1);
      RegisterMeans(c, s1, to, nonce.value, now);
      SentFrame(c, s, s1, r, s.endpoint, ProbeMail(c, s, to, now, 0), now);
      VerifiedStill(c, s, s1, to);
    } else {
      SentNothing(c, s, r, now);
    }
  }

  lemma RegisterMeans(c: Config, s: State, to: Endpoint, nonce: Nonce, now: nat)
    ensures var r := Register(c, s, to, nonce, now);
            var mail := if Payable(c, s, to, now, 0) then [Mail(Hello(nonce, c.localVip), to)] else [];
            && Sent(c, s, r, s.endpoint, mail, now)
            && TokensAt(r, now) == TokensAt(s, now) - Price(c, s, mail)
            && r.probes == s.probes + (if mail == [] then [] else [Probe(to, nonce, now, false)])
  {
    hide SpendFor, SendPacket, Sent, IsVerified, Refilled;
    var s1 := SpendFor(c, s, to, now).0;
    SpendMeans(c, s, to, now);
    var s2 := s1.(probes := s1.probes + [Probe(to, nonce, now, false)]);
    SentOne(c, s2, Hello(nonce, c.localVip), to, now);
    SentNothing(c, s, s1, now);
    SentFrame(c, s, s2, SendPacket(c, s2, Hello(nonce, c.localVip), to, now).0, s.endpoint, [Mail(Hello(nonce, c.localVip), to)], now);
  }

  // ---------------------------------------------------------------- becoming connected

  predicate Connects(before: Phase, after: Phase) {
    after == Connected && before != Connected
  }

  function Told(before: Phase, after: Phase): seq<Note> {
    if before == after then [] else [Note(before, after)]
  }

  // A session that has just connected stops punching, counts losses from here, and says so to its peer.
  predicate Settled(c: Config, s: State, r: State, before: Phase, now: nat) {
    var rises := Connects(before, PhaseOf(r));
    && PhaseOf(r) == PhaseOf(s)
    && Sent(c, s, r, s.endpoint, if rises then ToAll(Keepalive, Targets(c, s)) else [], now)
    && r.notes == s.notes + Told(before, PhaseOf(r))
    && r.idleDue == (if rises then Some(now + IDLE_TIMEOUT) else s.idleDue)
    && r.keepaliveDue == (if rises then Some(now + KEEPALIVE_INTERVAL) else s.keepaliveDue)
    && r.pingDue == (if rises then Some(now + PING_INTERVAL) else s.pingDue)
    && r.helloDue == (if rises then None else s.helloDue)
    && r.punchDue == (if rises then None else s.punchDue)
    && r.lossBaseline == (if rises then Some(s.window.position) else s.lossBaseline)
    && r.lossAccepted == (if rises then 0 else s.lossAccepted)
    && r.lossTotals == s.lossTotals
  }

  lemma ConnectedMeans(c: Config, s: State, now: nat)
    ensures var r := EnterConnected(c, s, now);
            && Sent(c, s, r, s.endpoint, ToAll(Keepalive, Targets(c, s)), now)
            && PhaseOf(r) == PhaseOf(s)
  {
    hide SendToPeer, Sealed;
    var s1 := s.(helloDue := None, punchDue := None, lossBaseline := Some(s.window.position), lossAccepted := 0,
                 idleDue := Some(now + IDLE_TIMEOUT), pingDue := Some(now + PING_INTERVAL));
    SendToPeerPosts(c, s1, Keepalive, now);
    SealedFrame(c, s1, s.(endpoint := s.endpoint), ToAll(Keepalive, Targets(c, s)), now);
  }

  lemma SettleMeans(c: Config, s: State, before: Phase, now: nat)
    ensures Settled(c, s, Settle(c, s, before, now), before, now)
  {
    hide EnterConnected, Sealed, PhaseOf;
    ConnectedMeans(c, s, now);
    PhaseFrame(s, EnterConnected(c, s, now));
    PhaseFrame(EnterConnected(c, s, now), Settle(c, s, before, now));
    PhaseFrame(s, Settle(c, s, before, now));
    SentNothing(c, s, s, now);
  }

  lemma PhaseFrame(s: State, r: State)
    ensures s.gotAck == r.gotAck && s.sentAck == r.sentAck && s.terminal == r.terminal ==> PhaseOf(s) == PhaseOf(r)
  {
  }

  // ---------------------------------------------------------------- all that an accepted packet sends and starts

  function SearchMail(c: Config, s: State, p: RxPacket, probe: Option<nat>, advanced: bool, now: nat): seq<Mail> {
    if Searches(c, s, p, probe, advanced)
    then ProbeMail(c, s, p.from, now, Price(c, s, ReplyMail(c, s, p, now))) else []
  }

  function ConnectMail(c: Config, before: Phase, r: State): seq<Mail> {
    if Connects(before, PhaseOf(r)) then ToAll(Keepalive, Targets(c, r)) else []
  }

  // With s the state that has counted the packet: the datagrams that leave, in order, and what they cost.
  predicate Answered(c: Config, s: State, p: RxPacket, probe: Option<nat>, advanced: bool, r: State, now: nat) {
    var reply := ReplyMail(c, s, p, now);
    var search := SearchMail(c, s, p, probe, advanced, now);
    && Sent(c, s, r, r.endpoint, reply + search + ConnectMail(c, PhaseOf(s), r), now)
    && TokensAt(r, now) == TokensAt(s, now) - Price(c, s, reply) - Price(c, s, search)
    && r.sentAck == (s.sentAck || (p.body.Hello? && reply != [] && c.net(|s.out|)))
  }

  // The timers of a connected session start when it connects; the one of silence starts again with every packet.
  predicate TimersOf(s: State, r: State, now: nat) {
    var rises := Connects(PhaseOf(s), PhaseOf(r));
    && r.idleDue == (if PhaseOf(s) == Connected || rises then Some(now + IDLE_TIMEOUT) else s.idleDue)
    && r.keepaliveDue == (if rises then Some(now + KEEPALIVE_INTERVAL) else s.keepaliveDue)
    && r.pingDue == (if rises then Some(now + PING_INTERVAL) else s.pingDue)
    && r.helloDue == (if rises then None else s.helloDue)
    && r.punchDue == (if rises then None else s.punchDue)
    && r.notes == s.notes + Told(PhaseOf(s), PhaseOf(r))
    && r.lossBaseline == (if rises then Some(s.window.position) else s.lossBaseline)
    && r.lossAccepted == (if rises then 0 else s.lossAccepted)
    && r.lossTotals == s.lossTotals
  }

  // The probe that was answered is marked; a search drops the dead ones and adds its own.
  predicate ProbesOf(c: Config, s: State, p: RxPacket, probe: Option<nat>, advanced: bool, r: State, now: nat) {
    var search := SearchMail(c, s, p, probe, advanced, now);
    && r.probes == (if probe.Some? && probe.value < |s.probes| then s.probes[probe.value := s.probes[probe.value].(answered := true)]
                    else if !Searches(c, s, p, probe, advanced) then s.probes
                    else LiveProbes(s.probes, now)
                         + (if search == [] then [] else [Probe(p.from, search[0].body.nonce, now, false)]))
    && r.draws == s.draws + if Searches(c, s, p, probe, advanced) && MayProbe(c, s, p.from, now) then 1 else 0
  }

  // What admitting, acting and searching each leave alone for the next.
  predicate Admission(c: Config, s: State, p: RxPacket, probe: Option<nat>, s1: State, now: nat) {
    && s1.out == s.out && s1.nextSeq == s.nextSeq && s1.budget == s.budget && s1.budgetAt == s.budgetAt
    && s1.sentAck == s.sentAck && s1.draws == s.draws
    && s1.probes == (if probe.Some? && probe.value < |s.probes| then s.probes[probe.value := s.probes[probe.value].(answered := true)]
                     else s.probes)
    && (probe.None? ==> IsVerified(c, s1, p.from) == IsVerified(c, s, p.from))
  }

  lemma AdmissionHolds(c: Config, s: State, p: RxPacket, probe: Option<nat>, advanced: bool, now: nat)
    requires probe.Some? ==> probe.value < |s.probes|
    ensures Admission(c, s, p, probe, Admit(c, s, p, probe, advanced, now), now)
  {
    hide PhaseOf;
  }

  predicate SearchedOrNot(c: Config, s2: State, p: RxPacket, searches: bool, s3: State, now: nat) {
    if searches then Searched(c, s2, p.from, s3, now) && s3.sentAck == s2.sentAck && s3.endpoint == s2.endpoint else s3 == s2
  }

  lemma AnsweredInParts(c: Config, s: State, s1: State, s2: State, s3: State, r: State, p: RxPacket, probe: Option<nat>,
                        advanced: bool, now: nat)
    requires (probe.Some? ==> p.body.HelloAck?) && Admission(c, s, p, probe, s1, now)
    requires Replied(c, s1, p, s2, now) && s2.draws == s1.draws && s2.probes == s1.probes && s2.endpoint == s1.endpoint
    requires SearchedOrNot(c, s2, p, Searches(c, s, p, probe, advanced), s3, now)
    requires Settled(c, s3, r, PhaseOf(s), now) && r.sentAck == s3.sentAck && r.endpoint == s3.endpoint && r.probes == s3.probes
    requires r.draws == s3.draws && r.budget == s3.budget && r.budgetAt == s3.budgetAt
    ensures Answered(c, s, p, probe, advanced, r, now) && ProbesOf(c, s, p, probe, advanced, r, now)
  {
    hide Sent, PhaseOf, Refilled, HasProbeTo, LiveProbes, Connects, Told;
    var reply := ReplyMail(c, s, p, now);
    assert reply == ReplyMail(c, s1, p, now);
    assert IsVerified(c, s2, p.from) == IsVerified(c, s1, p.from);
    var search := SearchMail(c, s, p, probe, advanced, now);
    SentFrame(c, s, s1, s2, s1.endpoint, reply, now);
    if !Searches(c, s, p, probe, advanced) {
      SentNothing(c, s2, s3, now);
    }
    SentThen(c, s, s2, s3, s1.endpoint, reply, search, now);
    SentThen(c, s, s3, r, s1.endpoint, reply + search, ConnectMail(c, PhaseOf(s), r), now);
  }

  predicate SameClocks(s: State, r: State) {
    && r.keepaliveDue == s.keepaliveDue && r.pingDue == s.pingDue && r.helloDue == s.helloDue && r.punchDue == s.punchDue
    && r.notes == s.notes && r.window == s.window
    && r.lossBaseline == s.lossBaseline && r.lossAccepted == s.lossAccepted && r.lossTotals == s.lossTotals
  }

  lemma TimersInParts(c: Config, s: State, s1: State, s3: State, r: State, now: nat)
    requires SameClocks(s, s1) && s1.idleDue == if PhaseOf(s) == Connected then Some(now + IDLE_TIMEOUT) else s.idleDue
    requires SameClocks(s1, s3) && s3.idleDue == s1.idleDue && Settled(c, s3, r, PhaseOf(s), now)
    ensures TimersOf(s, r, now)
  {
    hide Sent, PhaseOf, Told;
  }

  lemma AdmitClocks(c: Config, s: State, p: RxPacket, probe: Option<nat>, advanced: bool, now: nat)
    requires probe.Some? ==> probe.value < |s.probes|
    ensures var r := Admit(c, s, p, probe, advanced, now);
            SameClocks(s, r) && r.idleDue == if PhaseOf(s) == Connected then Some(now + IDLE_TIMEOUT) else s.idleDue
  {
    hide PhaseOf, IsVerified;
  }

  lemma ActClocks(c: Config, s: State, p: RxPacket, probe: Option<nat>, before: Phase, searches: bool, now: nat)
    requires !p.body.Close?
    ensures var s2 := Act(c, s, p, probe, before, now);
            var s3 := if searches then StartPathProbe(c, s2, p.from, now) else s2;
            && SameClocks(s, s3) && s3.idleDue == s.idleDue
            && s2.draws == s.draws && s2.probes == s.probes && s2.endpoint == s.endpoint
  {
    hide Act, StartPathProbe;
  }

  lemma SettleBooks(c: Config, s: State, before: Phase, now: nat)
    ensures var r := Settle(c, s, before, now);
            && r.sentAck == s.sentAck && r.endpoint == s.endpoint && r.probes == s.probes
            && r.draws == s.draws && r.budget == s.budget && r.budgetAt == s.budgetAt
  {
    hide EnterConnected, PhaseOf;
    var after := PhaseOf(s);
    if after != before {
      var s1 := if after == Connected then EnterConnected(c, s, now) else s;
      var r := s1.(notes := s1.notes + [Note(before, after)]);
      assert Settle(c, s, before, now) == r;
      hide Settle;
    }
  }

  lemma EffectsAnswer(c: Config, s: State, p: RxPacket, probe: Option<nat>, advanced: bool, now: nat)
    requires (probe.Some? ==> probe.value < |s.probes| && p.body.HelloAck?) && !p.body.Close?
    ensures var r := Effects(c, s, p, probe, advanced, now).0;
            Answered(c, s, p, probe, advanced, r, now) && ProbesOf(c, s, p, probe, advanced, r, now) && TimersOf(s, r, now)
  {
    hide Admit, Act, Settle, StartPathProbe, PhaseOf, IsVerified, Admission, Replied, Searched, Settled, SameClocks;
    hide Answered, ProbesOf, TimersOf;
    var before := PhaseOf(s);
    var s1 := Admit(c, s, p, probe, advanced, now);
    var s2 := Act(c, s1, p, probe, before, now);
    var searches := probe.None? && advanced && !IsVerified(c, s, p.from);
    var s3 := if searches then StartPathProbe(c, s2, p.from, now) else s2;
    var r := Settle(c, s3, before, now);
    AdmissionHolds(c, s, p, probe, advanced, now);
    AdmitClocks(c, s, p, probe, advanced, now);
    ActReplies(c, s1, p, probe, before, now);
    ActClocks(c, s1, p, probe, before, searches, now);
    SearchMeans(c, s2, p.from, now);
    SettleMeans(c, s3, before, now);
    SettleBooks(c, s3, before, now);
    TimersInParts(c, s, s1, s3, r, now);
    AnsweredInParts(c, s, s1, s2, s3, r, p, probe, advanced, now);
  }

  // The peer's close ends the session at once, with the reason it gave, and is not answered.
  predicate ClosedBy(c: Config, s: State, p: RxPacket, r: State, now: nat)
    requires p.body.Close?
  {
    && Ended(c, s, r, Closed, [], now) && r.peerClose == Some(p.body.reason) && r.failure == s.failure
    && r.gotAck == s.gotAck && r.sentAck == s.sentAck
  }

  lemma EffectsClose(c: Config, s: State, p: RxPacket, probe: Option<nat>, advanced: bool, now: nat)
    requires (probe.Some? ==> probe.value < |s.probes|) && p.body.Close?
    ensures var (r, drop) := Effects(c, s, p, probe, advanced, now);
            ClosedBy(c, s, p, r, now) && drop.None?
  {
    hide EnterTerminal, Ended, Sealed, IsVerified;
    var s1 := Admit(c, s, p, probe, advanced, now).(peerClose := Some(p.body.reason));
    assert Sealed(c, s, [], now) == [];
    TerminalEnds(c, s, s1, Closed, [], now);
    TerminalKeeps(s1, Closed, now);
  }

  // ---------------------------------------------------------------- renegotiation

  function AckMail(c: Config, s: State, p: RxPacket, now: nat): seq<Mail> {
    if p.body.Hello? && Payable(c, s, p.from, now, 0) then [Mail(HelloAck(p.body.nonce, c.localVip), p.from)] else []
  }

  // The old epoch is retired with its evidence, window, pings and losses; the new one is acknowledged to where
  // the hello came from, and punching begins again if it had begun.
  predicate BeganAgain(c: Config, s: State, p: RxPacket, r: State, now: nat) {
    var ack := AckMail(c, s, p, now);
    && r.retires == s.retires + (if s.pinned.Some? then [Retire(s.pinned.value, now)] else []) && r.pinned == Some(p.epoch)
    && r.renegotiations == s.renegotiations + 1 && r.lastRenegotiation == Some(now)
    && !r.gotAck && r.sentAck == (ack != [] && c.net(|s.out|))
    && r.pings == map[] && LossOf(r) == LossOf(s) && r.lossBaseline.None?
    && r.idleDue.None? && r.keepaliveDue.None? && r.pingDue.None?
    && r.helloDue == (if s.punchStarted then Some(now + HELLO_RETRANSMIT) else s.helloDue)
    && r.punchDue == (if s.punchStarted then Some(now + PUNCH_DEADLINE) else s.punchDue)
    && r.notes == s.notes + Told(PhaseOf(s), PhaseOf(r))
    && KeptOver(s, r)
  }

  predicate KeptOver(s: State, r: State) {
    && r.inbox == s.inbox && r.lastGeneration == s.lastGeneration && r.endpoint == s.endpoint
    && SameEnding(s, r) && r.failure == s.failure && r.punchStarted == s.punchStarted
  }

  predicate RestartSent(c: Config, s: State, p: RxPacket, r: State, now: nat) {
    && Sent(c, s, r, s.endpoint, AckMail(c, s, p, now) + (if s.punchStarted then HelloMail(c) else []), now)
    && TokensAt(r, now) == TokensAt(s, now) - Price(c, s, AckMail(c, s, p, now))
    && r.probes == s.probes && r.draws == s.draws && r.window == R.Fresh()
  }

  lemma RestartMeans(c: Config, s: State, now: nat)
    ensures var r := RestartPunch(c, s, now);
            && Sent(c, s, r, s.endpoint, if s.punchStarted then HelloMail(c) else [], now)
            && r.helloDue == (if s.punchStarted then Some(now + HELLO_RETRANSMIT) else s.helloDue)
            && r.punchDue == (if s.punchStarted then Some(now + PUNCH_DEADLINE) else s.punchDue)
  {
    hide HelloRound, Sealed, HelloMail;
    var s1 := s.(punchDue := Some(now + PUNCH_DEADLINE));
    HelloRoundPosts(c, s1, now);
    SealedFrame(c, s1, s.(endpoint := s.endpoint), HelloMail(c), now);
    SentNothing(c, s, s, now);
  }

  lemma RenegotiateSends(c: Config, s: State, p: RxPacket, now: nat)
    requires s.pinned.Some? && p.body.Hello?
    ensures RestartSent(c, s, p, Renegotiate(c, s, p.epoch, p.body.nonce, p.from, now), now)
  {
    hide SendHelloAck, RestartPunch, Settle, LossOf, Sent, HelloMail, Refilled;
    var s1 := Reset(s, p.epoch, now);
    var s2 := SendHelloAck(c, s1, p.body.nonce, p.from, now);
    AckSends(c, s1, p.body.nonce, p.from, now);
    var s3 := s2.(keepaliveDue := None, pingDue := None, idleDue := None);
    var s4 := RestartPunch(c, s3, now);
    RestartMeans(c, s3, now);
    var r := Settle(c, s4, PhaseOf(s), now);
    RenegotiateQuiet(c, s4, PhaseOf(s), now);
    var restart := if s.punchStarted then HelloMail(c) else [];
    SentFrame(c, s, s1, s3, s.endpoint, AckMail(c, s, p, now), now);
    SentAs(c, s1, s2, s3, s.endpoint, AckMail(c, s, p, now), now);
    SentThen(c, s, s3, s4, s.endpoint, AckMail(c, s, p, now), restart, now);
    SentAs(c, s, s4, r, s.endpoint, AckMail(c, s, p, now) + restart, now);
  }

  // Settling without connecting only tells.
  lemma RenegotiateQuiet(c: Config, s: State, before: Phase, now: nat)
    requires PhaseOf(s) == before || PhaseOf(s) != Connected
    ensures Settle(c, s, before, now) == s.(notes := s.notes + Told(before, PhaseOf(s)))
  {
    hide EnterConnected, PhaseOf;
    assert s.notes + [] == s.notes;
    assert s == s.(notes := s.notes);
  }

  lemma RenegotiateMeans(c: Config, s: State, p: RxPacket, now: nat)
    requires s.pinned.Some? && p.body.Hello?
    ensures BeganAgain(c, s, p, Renegotiate(c, s, p.epoch, p.body.nonce, p.from, now), now)
  {
    hide SendHelloAck, RestartPunch, Settle, Sent, HelloMail, Refilled, LossOf;
    var s1 := Reset(s, p.epoch, now);
    var s2 := SendHelloAck(c, s1, p.body.nonce, p.from, now);
    AckSends(c, s1, p.body.nonce, p.from, now);
    var s3 := s2.(keepaliveDue := None, pingDue := None, idleDue := None);
    var s4 := RestartPunch(c, s3, now);
    RestartMeans(c, s3, now);
    RenegotiateQuiet(c, s4, PhaseOf(s), now);
    LossReset(s, Renegotiate(c, s, p.epoch, p.body.nonce, p.from, now));
  }

  lemma LossReset(s: State, r: State)
    requires r.lossTotals == LossOf(s) && r.lossBaseline.None?
    ensures LossOf(r) == LossOf(s)
  {
  }

  // ---------------------------------------------------------------- the whole call

  // The probe the packet answers: the first live one with its nonce and source.
  function ProbeOf(s: State, p: RxPacket, now: nat): (r: Option<nat>)
    ensures r.Some? ==> p.body.HelloAck? && r.value < |LiveProbes(s.probes, now)|
  {
    if p.body.HelloAck? then FindProbe(LiveProbes(s.probes, now), p.body.nonce, p.from, 0) else None
  }

  // The session once it has counted the packet, whatever becomes of it then.
  function Noted(s: State, p: RxPacket, now: nat): State {
    var counts := s.lossBaseline.Some? && R.Check(s.window, p.number).pktPos > s.lossBaseline.value;
    s.(probes := if p.body.HelloAck? then LiveProbes(s.probes, now) else s.probes,
       window := R.Accept(s.window, p.number), lossAccepted := s.lossAccepted + (if counts then 1 else 0),
       pings := if p.body.Pong? then LivePings(s.pings, now) else s.pings)
  }

  predicate SameBut(s: State, r: State) {
    r == s.(probes := r.probes, window := r.window, lossAccepted := r.lossAccepted, pings := r.pings)
  }

  lemma TypeDecides(c: Config, s: State, p: RxPacket, now: nat)
    ensures var (r, bad) := TypeCheck(c, s, p.body, now);
            && (bad.None? <==> WellFormed(c, s, p, now))
            && r == s.(pings := if p.body.Pong? then LivePings(s.pings, now) else s.pings)
  {
    hide P.DecodeRoster, I.InnerVerdict, PhaseOf;
    assert s.(pings := s.pings) == s;
  }

  lemma CountedIs(c: Config, s: State, p: RxPacket, now: nat)
    requires IsNew(s, p)
    ensures var s1 := CountAccepted(s, p.number);
            && SameBut(s, s1) && s1.pings == s.pings && s1.probes == s.probes && s1.window == R.Accept(s.window, p.number)
            && (WellFormed(c, s1, p, now) <==> WellFormed(c, s, p, now))
            && ((p.body.HelloAck? ==> s.probes == LiveProbes(s.probes, now)) ==>
                  s1.(pings := if p.body.Pong? then LivePings(s.pings, now) else s.pings) == Noted(s, p, now))
  {
    var s1 := CountAccepted(s, p.number);
    assert WellFormed(c, s1, p, now) <==> WellFormed(c, s, p, now) by {
      hide R.Check, R.Record, P.DecodeRoster, I.InnerVerdict;
    }
    hide P.DecodeRoster, I.InnerVerdict, LivePings, LiveProbes, WellFormed, R.Check, R.Record;
  }

  lemma AfterGateMeans(c: Config, s: State, p: RxPacket, probe: Option<nat>, now: nat)
    requires probe.Some? ==> probe.value < |s.probes|
    requires p.body.HelloAck? ==> s.probes == LiveProbes(s.probes, now)
    ensures var (r, drop) := AfterGate(c, s, p, false, probe, now);
            if IsNew(s, p) && WellFormed(c, s, p, now) then
              (r, drop) == Effects(c, Noted(s, p, now), p, probe, R.Check(s.window, p.number).Advanced(), now)
            else
              && drop.Some? && SameBut(s, r)
              && r.window == (if IsNew(s, p) then R.Accept(s.window, p.number) else s.window)
  {
    hide Effects, WellFormed, R.Accept, Noted, TypeCheck, LivePings, LiveProbes;
    if IsNew(s, p) {
      TypeDecides(c, CountAccepted(s, p.number), p, now);
      CountedIs(c, s, p, now);
      hide CountAccepted;
    }
    hide R.Check;
  }

  // All that an accepted packet does: evidence, answers, timers and the probe table.
  predicate Performed(c: Config, s: State, p: RxPacket, r: State, now: nat) {
    var t := Noted(s, p, now);
    var advanced := R.Check(s.window, p.number).Advanced();
    if p.body.Close? then ClosedBy(c, t, p, r, now)
    else
      var probe := ProbeOf(s, p, now);
      && Moved(c, t, p, probe, advanced, r) && SameEnding(t, r)
      && Answered(c, t, p, probe, advanced, r, now) && TimersOf(t, r, now) && ProbesOf(c, t, p, probe, advanced, r, now)
  }

  // All that a renegotiation does: the new beginning, and the mail it sends.
  predicate Restarted(c: Config, s: State, p: RxPacket, r: State, now: nat) {
    var ack := AckMail(c, s, p, now);
    var search := if IsVerified(c, s, p.from) then [] else ProbeMail(c, s, p.from, now, Price(c, s, ack));
    && BeganAgain(c, s, p, r, now) && r.window == R.Accept(R.Fresh(), p.number)
    && Sent(c, s, r, s.endpoint, ack + (if s.punchStarted then HelloMail(c) else []) + search, now)
    && TokensAt(r, now) == TokensAt(s, now) - Price(c, s, ack) - Price(c, s, search)
  }

  lemma BeganFrame(c: Config, s: State, p: RxPacket, s1: State, s2: State, r: State, now: nat)
    requires BeganAgain(c, s, p, s1, now) && s2 == s1.(window := s2.window, lossAccepted := s2.lossAccepted)
    requires SameEvidence(s2, r) && r.lossBaseline == s2.lossBaseline && r.lossTotals == s2.lossTotals
    requires r.idleDue == s2.idleDue && r.keepaliveDue == s2.keepaliveDue && r.pingDue == s2.pingDue
    requires r.helloDue == s2.helloDue && r.punchDue == s2.punchDue && r.notes == s2.notes
    ensures BeganAgain(c, s, p, r, now)
  {
    hide AckMail, PhaseOf, Told, LossOf;
    PhaseFrame(s1, r);
    LossFrame(s1, r);
  }

  predicate SearchedAfter(c: Config, s2: State, p: RxPacket, searches: bool, r: State, now: nat) {
    if searches then Searched(c, s2, p.from, r, now) && SameEvidence(s2, r) && SameClocks(s2, r) && r.idleDue == s2.idleDue
    else r == s2
  }

  lemma SearchFrame(c: Config, s: State, p: RxPacket, s1: State, s2: State, r: State, searches: bool, now: nat)
    requires BeganAgain(c, s, p, s1, now) && RestartSent(c, s, p, s1, now)
    requires s2 == s1.(window := s2.window, lossAccepted := s2.lossAccepted)
    requires SearchedAfter(c, s2, p, searches, r, now)
    requires searches == !IsVerified(c, s2, p.from) && s2.window == R.Accept(R.Fresh(), p.number)
    ensures Restarted(c, s, p, r, now)
  {
    assert s1.endpoint == s.endpoint;
    hide R.Accept, R.Fresh, BeganAgain, RestartSent;
    BeganFrame(c, s, p, s1, s2, r, now);
    RestartMail(c, s, p, s1, s2, r, searches, now);
  }

  lemma RestartMail(c: Config, s: State, p: RxPacket, s1: State, s2: State, r: State, searches: bool, now: nat)
    requires RestartSent(c, s, p, s1, now) && s1.endpoint == s.endpoint
    requires s2 == s1.(window := s2.window, lossAccepted := s2.lossAccepted)
    requires SearchedAfter(c, s2, p, searches, r, now) && searches == !IsVerified(c, s2, p.from)
    ensures var ack := AckMail(c, s, p, now);
            var search := if IsVerified(c, s, p.from) then [] else ProbeMail(c, s, p.from, now, Price(c, s, ack));
            && Sent(c, s, r, s.endpoint, ack + (if s.punchStarted then HelloMail(c) else []) + search, now)
            && TokensAt(r, now) == TokensAt(s, now) - Price(c, s, ack) - Price(c, s, search)
  {
    hide R.Fresh, HelloMail, HasProbeTo, LiveProbes, Refilled, Sent, SameEvidence, SameClocks;
    var ack := AckMail(c, s, p, now);
    var again := if s.punchStarted then HelloMail(c) else [];
    var search := if IsVerified(c, s, p.from) then [] else ProbeMail(c, s, p.from, now, Price(c, s, ack));
    SentAs(c, s, s1, s2, s.endpoint, ack + again, now);
    if !searches {
      SentNothing(c, s2, r, now);
    }
    SentThen(c, s, s2, r, s.endpoint, ack + again, search, now);
  }

  lemma LossFrame(s: State, r: State)
    requires s.lossBaseline.None? && r.lossBaseline.None? && r.lossTotals == s.lossTotals
    ensures LossOf(r) == LossOf(s)
  {
  }

  lemma RestartFresh(c: Config, s: State, p: RxPacket, r: State, now: nat)
    requires RestartSent(c, s, p, r, now)
    ensures r.window == R.Fresh()
  {
  }

  lemma RestartedBy(c: Config, s: State, p: RxPacket, now: nat)
    requires s.pinned.Some? && p.body.Hello?
    ensures var s1 := Renegotiate(c, s, p.epoch, p.body.nonce, p.from, now);
            var (r, drop) := AfterGate(c, s1, p, true, None, now);
            Restarted(c, s, p, r, now) && drop.None?
  {
    hide Renegotiate, BeganAgain, RestartSent, Restarted, IsVerified, StartPathProbe, Searched, SameEvidence, SameClocks, R.Record;
    var s1 := Renegotiate(c, s, p.epoch, p.body.nonce, p.from, now);
    RenegotiateMeans(c, s, p, now);
    RenegotiateSends(c, s, p, now);
    RestartFresh(c, s, p, s1, now);
    assert IsNew(s1, p);
    var s2 := CountAccepted(s1, p.number);
    SearchMeans(c, s2, p.from, now);
    ProbeHolds(c, s2, p.from, now);
    ProbeClocks(c, s2, p.from, now);
    var r := if IsVerified(c, s2, p.from) then s2 else StartPathProbe(c, s2, p.from, now);
    SearchFrame(c, s, p, s1, s2, r, !IsVerified(c, s2, p.from), now);
  }

  lemma ProbeClocks(c: Config, s: State, from: Endpoint, now: nat)
    ensures var r := StartPathProbe(c, s, from, now);
            SameClocks(s, r) && r.idleDue == s.idleDue
  {
    hide StartPathProbe;
  }

  lemma {:induction false} LiveTwice(probes: seq<Probe>, now: nat)
    ensures LiveProbes(LiveProbes(probes, now), now) == LiveProbes(probes, now)
  {
    if probes != [] {
      LiveTwice(probes[1..], now);
      var live := LiveProbes(probes[1..], now);
      assert ([probes[0]] + live)[1..] == live;
    }
  }

  lemma AcceptedDoes(c: Config, s: State, p: RxPacket, now: nat)
    requires Accepts(c, s, p, now)
    ensures var (r, drop) := Effects(c, Noted(s, p, now), p, ProbeOf(s, p, now), R.Check(s.window, p.number).Advanced(), now);
            Performed(c, s, p, r, now) && drop == if p.body.Data? && !c.hasSink then Some(DropNoSink) else None
  {
    hide Effects, Moved, SameEnding, Answered, TimersOf, ProbesOf, ClosedBy, Accepts, R.Accept, R.Check, FindProbe;
    var t := Noted(s, p, now);
    var advanced := R.Check(s.window, p.number).Advanced();
    var probe := ProbeOf(s, p, now);
    if p.body.Close? {
      EffectsClose(c, t, p, probe, advanced, now);
    } else {
      EffectsMove(c, t, p, probe, advanced, now);
      EffectsAnswer(c, t, p, probe, advanced, now);
    }
  }

  // Main result: for every state and packet, what the call does.  A packet is accepted exactly when it is of
  // this attempt, new and well formed; a hello of a peer that began again starts the session over; every other
  // packet is dropped with a reason, and leaves only its mark in the window and the dead entries removed.
  lemma RestartIsNotNext(c: Config, s: State, p: RxPacket, now: nat)
    requires Renegotiates(c, s, p, now)
    ensures !FromPeer(c, s, p, now)
  {
  }

  lemma ReceiveMeans(c: Config, s: State, p: RxPacket, now: nat)
    ensures var (r, drop) := Receive(c, s, p, now);
            if Accepts(c, s, p, now) then
              Performed(c, s, p, r, now) && drop == if p.body.Data? && !c.hasSink then Some(DropNoSink) else None
            else if Active(s) && Renegotiates(c, s, p, now) then
              Restarted(c, s, p, r, now) && drop.None?
            else
              && drop.Some? && SameBut(s, r)
              && r.window == (if Counts(c, s, p, now) then R.Accept(s.window, p.number) else s.window)
  {
    hide EpochGate, AfterGate, Performed, Restarted, FromPeer, WellFormed, Renegotiate, R.Check, R.Accept, Effects;
    if Active(s) {
      var (s1, gate) := EpochGate(c, s, p, now);
      GateDecides(c, s, p, now);
      if Renegotiates(c, s, p, now) {
        RestartedBy(c, s, p, now);
        RestartIsNotNext(c, s, p, now);
      } else if gate.Go? {
        GateFinds(c, s, p, now);
        LiveTwice(s.probes, now);
        AfterGateMeans(c, s1, p, gate.probe, now);
        GateFrame(c, s, s1, p, now);
        if Accepts(c, s, p, now) {
          AcceptedDoes(c, s, p, now);
        }
      }
    }
  }

  lemma GateFinds(c: Config, s: State, p: RxPacket, now: nat)
    requires !Renegotiates(c, s, p, now)
    ensures var (s1, gate) := EpochGate(c, s, p, now);
            gate.Go? ==> gate.probe == ProbeOf(s, p, now)
                         && s1 == s.(probes := if p.body.HelloAck? then LiveProbes(s.probes, now) else s.probes)
  {
    hide Renegotiate, LiveProbes, FindProbe;
  }

  // Dropping dead probes changes nothing else the packet is judged by.
  lemma GateFrame(c: Config, s: State, s1: State, p: RxPacket, now: nat)
    requires s1 == s.(probes := if p.body.HelloAck? then LiveProbes(s.probes, now) else s.probes)
    ensures IsNew(s1, p) == IsNew(s, p) && WellFormed(c, s1, p, now) == WellFormed(c, s, p, now)
    ensures Noted(s1, p, now) == Noted(s, p, now)
  {
    hide R.Check, R.Accept, P.DecodeRoster, I.InnerVerdict, LiveProbes, LivePings;
    LiveTwice(s.probes, now);
  }

  // ---------------------------------------------------------------- what reaches the sink

  // Data of the pinned epoch, under a new number, whose inner packet is in order, at a connected session with a sink.
  predicate Delivers(c: Config, s: State, p: RxPacket) {
    && p.body.Data? && PhaseOf(s) == Connected && s.pinned == Some(p.epoch) && IsNew(s, p)
    && I.InnerVerdict(p.body.inner, c.peerVip, c.localVip) == I.InnerOk && c.hasSink
  }

  // Main result: for every state and packet, the sink gets exactly that payload, or nothing.
  lemma InboxGrowsExactly(c: Config, s: State, p: RxPacket, now: nat)
    ensures Receive(c, s, p, now).0.inbox == s.inbox + if Delivers(c, s, p) then [p.body.inner] else []
  {
    hide Receive, Answered, TimersOf, ProbesOf, SameEnding, R.Check, R.Accept, I.InnerVerdict, P.DecodeRoster, HoldsRoster;
    hide Sent, Sealed, LossOf, AnswersProbe, ProbeOf, LiveProbes, LivePings;
    ReceiveMeans(c, s, p, now);
  }

  // The same in terms of positions: no position reaches the sink twice, and none from behind the window.
  lemma DeliversNewPositions(c: Config, s: State, p: RxPacket, first: U32, accepted: set<int>, now: nat)
    requires R.Stands(s.window, first, accepted)
    ensures var top := if s.window.initialized then s.window.position else R.WINDOW as int;
            var pos := if s.window.initialized then R.PositionOf(s.window.position, s.window.highest, p.number) else top;
            && (Delivers(c, s, p) <==>
                  && p.body.Data? && PhaseOf(s) == Connected && s.pinned == Some(p.epoch)
                  && pos !in accepted && pos >= top - R.WINDOW
                  && I.InnerVerdict(p.body.inner, c.peerVip, c.localVip) == I.InnerOk && c.hasSink)
            && (Delivers(c, s, p) ==>
                  R.Stands(Receive(c, s, p, now).0.window, if s.window.initialized then first else p.number, accepted + {pos}))
  {
    hide Receive, Answered, TimersOf, ProbesOf, SameEnding, R.Check, R.Accept, I.InnerVerdict, P.DecodeRoster, HoldsRoster;
    hide Sent, Sealed, LossOf, AnswersProbe, ProbeOf, LiveProbes, LivePings, R.Stands;
    R.AcceptRefinesSet(s.window, first, accepted, p.number);
    ReceiveMeans(c, s, p, now);
  }

  // The payloads of a run, from its events alone and the state each of them met.
  function Delivered(c: Config, start: nat, events: seq<Event>, n: nat): seq<seq<Byte>>
    requires n <= |events|
  {
    if n == 0 then []
    else
      var e := events[n - 1];
      Delivered(c, start, events, n - 1)
      + if e.EvReceive? && Delivers(c, Run(c, Initial(start), events[..n - 1]), e.packet) then [e.packet.body.inner] else []
  }

  lemma OthersDeliverNothing(c: Config, s: State, e: Event)
    requires !e.EvReceive?
    ensures Step(c, s, e).inbox == s.inbox
  {
    hide Poll, CloseByUser, HelloRound, SendToPeer, SendData, PhaseOf, Polled, Sealed, LossOf, Due;
    match e
    case EvPoll(now) => PollMeans(c, s, now);
    case EvClose(now) => CloseMeans(c, s, now);
    case _ =>
  }

  lemma StepAt(c: Config, s: State, events: seq<Event>, k: nat)
    requires k < |events|
    ensures Run(c, s, events[..k + 1]) == Step(c, Run(c, s, events[..k]), events[k])
  {
    var upto := events[..k + 1];
    assert upto[..k] == events[..k] && upto[k] == events[k];
  }

  // Main result: over every run, the sink holds the accepted payloads, each once, in the order they came.
  lemma {:induction false} InboxIsDelivered(c: Config, start: nat, events: seq<Event>, n: nat)
    requires n <= |events|
    ensures Run(c, Initial(start), events[..n]).inbox == Delivered(c, start, events, n)
  {
    if n > 0 {
      InboxIsDelivered(c, start, events, n - 1);
      StepAt(c, Initial(start), events, n - 1);
      var s := Run(c, Initial(start), events[..n - 1]);
      var e := events[n - 1];
      hide Run, Receive, Delivers;
      if e.EvReceive? {
        InboxGrowsExactly(c, s, e.packet, e.now);
      } else {
        OthersDeliverNothing(c, s, e);
        hide Step;
      }
    }
  }

  // ---------------------------------------------------------------- evidence, endpoint and answers

  lemma ProbeIsAnswered(s: State, p: RxPacket, now: nat)
    ensures ProbeOf(s, p, now).Some? <==> AnswersProbe(s, p, now)
  {
    hide FindProbe, LiveProbes;
    if p.body.HelloAck? {
      FindLive(s.probes, p, now);
    }
  }

  // Main result: the peer's acknowledgement is taken exactly from a new acknowledgement of this attempt's nonce
  // that is not the echo of a path probe, and lost exactly when the peer begins again.
  lemma AckIsTakenExactly(c: Config, s: State, p: RxPacket, now: nat)
    ensures var r := Receive(c, s, p, now).0;
            && (!s.gotAck && r.gotAck <==>
                  && Active(s) && !s.gotAck && PhaseOf(s) != Connected
                  && p.body == HelloAck(c.attemptNonce, c.peerVip) && !AnswersProbe(s, p, now)
                  && (s.pinned.None? || s.pinned.value == p.epoch) && IsNew(s, p))
            && (s.gotAck && !r.gotAck <==> s.gotAck && Active(s) && Renegotiates(c, s, p, now))
  {
    hide Receive, Answered, TimersOf, ProbesOf, R.Check, R.Accept, I.InnerVerdict, P.DecodeRoster, HoldsRoster, KeptOver;
    hide Sent, Sealed, LossOf, AnswersProbe, LiveProbes, LivePings, FindProbe;
    ReceiveMeans(c, s, p, now);
    ProbeIsAnswered(s, p, now);
  }

  // Main result: a packet that does not end the session teaches it an endpoint exactly when it is accepted, newer than
  // all before, and comes from an address that is vouched for or has just answered its probe.
  lemma LearnsExactly(c: Config, s: State, p: RxPacket, now: nat)
    requires !p.body.Close?
    ensures Receive(c, s, p, now).0.endpoint ==
            if Accepts(c, s, p, now) && R.Check(s.window, p.number).Advanced()
               && (AnswersProbe(s, p, now) || IsVerified(c, s, p.from))
            then Some(p.from) else s.endpoint
  {
    hide Receive, Answered, TimersOf, ProbesOf, R.Check, R.Accept, I.InnerVerdict, P.DecodeRoster, HoldsRoster;
    hide Sent, Sealed, LossOf, AnswersProbe, LiveProbes, LivePings, FindProbe, FromPeer, WellFormed;
    ReceiveMeans(c, s, p, now);
    ProbeIsAnswered(s, p, now);
  }

  // A packet that is answered at all is answered first, once, to where it came from: a ping with a pong of its
  // own id, a hello with an acknowledgement of its own nonce.
  predicate AnswersRightly(c: Config, s: State, p: RxPacket, r: State, now: nat) {
    && s.out <= r.out
    && (forall i | |s.out| <= i < |r.out| && r.out[i].body.Pong? ::
          i == |s.out| && p.body == Ping(r.out[i].body.id) && r.out[i].to == p.from)
    && (forall i | |s.out| <= i < |r.out| && r.out[i].body.HelloAck? ::
          i == |s.out| && p.body.Hello? && r.out[i].body == HelloAck(p.body.nonce, c.localVip) && r.out[i].to == p.from)
    && (forall i | |s.out| <= i < |r.out| :: r.out[i].at == now && r.out[i].taken == c.net(i) && !r.out[i].body.Data?)
  }

  lemma MailAt(c: Config, s: State, r: State, first: seq<Mail>, rest: seq<Mail>, now: nat, i: nat)
    requires Sent(c, s, r, r.endpoint, first + rest, now) && |s.out| <= i < |r.out|
    ensures var k := i - |s.out|;
            && k < |first| + |rest|
            && r.out[i].at == now && r.out[i].taken == c.net(i)
            && Mail(r.out[i].body, r.out[i].to) == if k < |first| then first[k] else rest[k - |first|]
  {
    assert r.out[i] == Sealed(c, s.(endpoint := r.endpoint), first + rest, now)[i - |s.out|];
  }

  predicate IsQuiet(mail: seq<Mail>) {
    forall i | 0 <= i < |mail| :: mail[i].body.Hello? || mail[i].body.Keepalive?
  }

  lemma MailAnswersRightly(c: Config, s: State, p: RxPacket, r: State, first: seq<Mail>, rest: seq<Mail>, now: nat)
    requires Sent(c, s, r, r.endpoint, first + rest, now)
    requires (first == ReplyMail(c, s, p, now) || first == []) && IsQuiet(rest)
    ensures AnswersRightly(c, s, p, r, now)
  {
    hide Payable, Sealed;
    forall i | |s.out| <= i < |r.out|
      ensures r.out[i].at == now && r.out[i].taken == c.net(i)
      ensures !r.out[i].body.Data?
      ensures r.out[i].body.Pong? ==> i == |s.out| && p.body == Ping(r.out[i].body.id) && r.out[i].to == p.from
      ensures r.out[i].body.HelloAck? ==>
                i == |s.out| && p.body.Hello? && r.out[i].body == HelloAck(p.body.nonce, c.localVip) && r.out[i].to == p.from
    {
      MailAt(c, s, r, first, rest, now, i);
    }
  }

  // The first datagram after this state answers the packet.
  predicate FirstAnswer(c: Config, s: State, p: RxPacket, r: State, body: Body, now: nat) {
    |r.out| > |s.out| && r.out[|s.out|] == Datagram(now, p.from, body, s.nextSeq, c.net(|s.out|), r.endpoint)
  }

  lemma FirstIs(c: Config, s: State, p: RxPacket, r: State, first: seq<Mail>, rest: seq<Mail>, now: nat)
    requires Sent(c, s, r, r.endpoint, first + rest, now) && first != [] && first[0].to == p.from
    ensures FirstAnswer(c, s, p, r, first[0].body, now)
  {
    assert r.out[|s.out|] == Sealed(c, s.(endpoint := r.endpoint), first + rest, now)[0];
  }

  // A call that counts the packet changes nothing an answer depends on.
  lemma NotedFrame(c: Config, s: State, p: RxPacket, now: nat)
    ensures var t := Noted(s, p, now);
            && t.out == s.out && t.nextSeq == s.nextSeq && ReplyMail(c, t, p, now) == ReplyMail(c, s, p, now)
  {
    hide R.Check, R.Accept, LiveProbes, LivePings, Refilled;
  }

  lemma SilentIsRight(c: Config, s: State, p: RxPacket, r: State, now: nat)
    requires r.out == s.out
    ensures AnswersRightly(c, s, p, r, now)
  {
  }

  lemma PerformedAnswers(c: Config, s: State, p: RxPacket, r: State, now: nat)
    requires Performed(c, s, p, r, now)
    ensures AnswersRightly(c, s, p, r, now)
    ensures p.body.Ping? && Payable(c, s, p.from, now, 0) ==> FirstAnswer(c, s, p, r, Pong(p.body.id), now)
    ensures p.body.Hello? && Payable(c, s, p.from, now, 0) ==>
              FirstAnswer(c, s, p, r, HelloAck(p.body.nonce, c.localVip), now)
  {
    hide Moved, SameEnding, TimersOf, ProbesOf, Noted, AnswersRightly, FirstAnswer, Sent, LossOf, Payable, MayProbe, Searches;
    hide ProbeOf, R.Check, PhaseOf, AnswersRightly;
    var t := Noted(s, p, now);
    NotedFrame(c, s, p, now);
    if p.body.Close? {
      SilentIsRight(c, s, p, r, now);
    } else {
      var search := SearchMail(c, t, p, ProbeOf(s, p, now), R.Check(s.window, p.number).Advanced(), now);
      var reply := ReplyMail(c, s, p, now);
      var rest := search + ConnectMail(c, PhaseOf(t), r);
      SentFrame(c, s, t, r, r.endpoint, reply + rest, now);
      assert reply + search + ConnectMail(c, PhaseOf(t), r) == reply + rest;
      MailAnswersRightly(c, s, p, r, reply, rest, now);
      if reply != [] {
        FirstIs(c, s, p, r, reply, rest, now);
      }
    }
  }

  lemma RestartedAnswers(c: Config, s: State, p: RxPacket, r: State, now: nat)
    requires Restarted(c, s, p, r, now) && p.body.Hello?
    ensures AnswersRightly(c, s, p, r, now)
    ensures Payable(c, s, p.from, now, 0) ==> FirstAnswer(c, s, p, r, HelloAck(p.body.nonce, c.localVip), now)
  {
    hide AnswersRightly, FirstAnswer, Sent, LossOf, Payable, MayProbe, PhaseOf, R.Accept;
    var ack := AckMail(c, s, p, now);
    var search := if IsVerified(c, s, p.from) then [] else ProbeMail(c, s, p.from, now, Price(c, s, ack));
    var again := if s.punchStarted then HelloMail(c) else [];
    var rest := again + search;
    assert ack + again + search == ack + rest;
    assert ack == ReplyMail(c, s, p, now);
    MailAnswersRightly(c, s, p, r, ack, rest, now);
    if ack != [] {
      FirstIs(c, s, p, r, ack, rest, now);
    }
  }

  // Main result: over every state and packet, all answers are right, and every packet that is owed one and
  // that a token or a known address pays for gets it.
  lemma AnswersAreRight(c: Config, s: State, p: RxPacket, now: nat)
    ensures var r := Receive(c, s, p, now).0;
            && AnswersRightly(c, s, p, r, now)
            && (Accepts(c, s, p, now) && p.body.Ping? && Payable(c, s, p.from, now, 0) ==>
                  FirstAnswer(c, s, p, r, Pong(p.body.id), now))
            && ((Accepts(c, s, p, now) || (Active(s) && Renegotiates(c, s, p, now))) && p.body.Hello?
                && Payable(c, s, p.from, now, 0) ==>
                  FirstAnswer(c, s, p, r, HelloAck(p.body.nonce, c.localVip), now))
  {
    hide Receive, Accepts, Performed, Restarted, AnswersRightly, FirstAnswer, Payable;
    ReceiveMeans(c, s, p, now);
    var r := Receive(c, s, p, now).0;
    if Accepts(c, s, p, now) {
      PerformedAnswers(c, s, p, r, now);
    } else if Active(s) && Renegotiates(c, s, p, now) {
      RestartedAnswers(c, s, p, r, now);
    } else {
      SilentIsRight(c, s, p, r, now);
    }
  }

  // ---------------------------------------------------------------- why a packet is dropped

  predicate Greets(c: Config, p: RxPacket) {
    (p.body.Hello? || p.body.HelloAck?) && p.body.virtualIp == c.peerVip
  }

  predicate OtherEpoch(s: State, p: RxPacket) {
    s.pinned.Some? && s.pinned.value != p.epoch
  }

  predicate TooSoon(s: State, now: nat) {
    s.lastRenegotiation.Some? && now < s.lastRenegotiation.value + MIN_RENEG_INTERVAL
  }

  // The reasons of the source and epoch checks, each exactly where it holds.
  predicate GateReasons(c: Config, s: State, p: RxPacket, drop: Option<Drop>, now: nat) {
    var greeting := p.body.Hello? || p.body.HelloAck?;
    && (drop == Some(DropTerminalState) <==> !Active(s))
    && (drop == Some(DropVipMismatch) <==> Active(s) && greeting && !Greets(c, p))
    && (drop == Some(DropRenegRate) <==> Active(s) && p.body.Hello? && Greets(c, p) && OtherEpoch(s, p) && TooSoon(s, now))
    && (drop == Some(DropRenegLimit) <==>
          && Active(s) && p.body.Hello? && Greets(c, p) && OtherEpoch(s, p)
          && !TooSoon(s, now) && s.renegotiations >= MAX_RENEGOTIATIONS)
    && (drop == Some(DropBadNonce) <==>
          Active(s) && p.body.HelloAck? && Greets(c, p) && !AnswersProbe(s, p, now) && p.body.nonce != c.attemptNonce)
    && (drop == Some(DropNoEpoch) <==> Active(s) && !greeting && s.pinned.None?)
    && (drop == Some(DropStaleEpoch) <==>
          Active(s) && if p.body.HelloAck? then
                         && Greets(c, p)
                         && if AnswersProbe(s, p, now) then s.pinned != Some(p.epoch)
                            else p.body.nonce == c.attemptNonce && OtherEpoch(s, p)
                       else !greeting && OtherEpoch(s, p))
  }

  // The reasons of the window and of the type's own check.
  predicate LaterReasons(c: Config, s: State, p: RxPacket, drop: Option<Drop>, now: nat) {
    && (drop == Some(DropDuplicate) <==> Active(s) && FromPeer(c, s, p, now) && R.Check(s.window, p.number).verdict.Duplicate?)
    && (drop == Some(DropTooOld) <==> Active(s) && FromPeer(c, s, p, now) && R.Check(s.window, p.number).verdict.TooOld?)
    && (drop == Some(DropDataEarly) <==> Counts(c, s, p, now) && p.body.Data? && PhaseOf(s) != Connected)
    && (drop.Some? && drop.value.DropInner? <==>
          && Counts(c, s, p, now) && p.body.Data? && PhaseOf(s) == Connected
          && I.InnerVerdict(p.body.inner, c.peerVip, c.localVip) != I.InnerOk)
    && (drop.Some? && drop.value.DropInner? && p.body.Data? ==>
          drop.value.error == I.InnerVerdict(p.body.inner, c.peerVip, c.localVip))
    && (drop == Some(DropUnmatchedPong) <==> Counts(c, s, p, now) && p.body.Pong? && !WellFormed(c, s, p, now))
    && (drop == Some(DropBadReason) <==> Counts(c, s, p, now) && p.body.Close? && p.body.reason > 3)
    && (drop.Some? && drop.value.DropRoster? <==> Counts(c, s, p, now) && p.body.Roster? && !WellFormed(c, s, p, now))
    && (drop == Some(DropNoSink) <==> Accepts(c, s, p, now) && p.body.Data? && !c.hasSink)
  }

  lemma GateTells(c: Config, s: State, p: RxPacket, now: nat)
    requires Active(s)
    ensures var (_, gate) := EpochGate(c, s, p, now);
            && GateReasons(c, s, p, if gate.Stop? then Some(gate.drop) else None, now)
            && (gate.Stop? ==> !FromPeer(c, s, p, now) && !Renegotiates(c, s, p, now) && IsGateReason(gate.drop))
  {
    hide Renegotiate, FindProbe, LiveProbes, PhaseOf;
    if p.body.HelloAck? {
      FindLive(s.probes, p, now);
      hide Echoes, IsLive;
    } else {
      hide AnswersProbe;
    }
  }

  predicate IsGateReason(d: Drop) {
    d.DropVipMismatch? || d.DropRenegRate? || d.DropRenegLimit? || d.DropBadNonce? || d.DropNoEpoch? || d.DropStaleEpoch?
  }

  // What the type's own check says of a new packet.
  predicate TypeReasons(c: Config, s: State, p: RxPacket, bad: Option<Drop>, now: nat) {
    if WellFormed(c, s, p, now) then bad.None?
    else if bad.None? then false
    else
      match p.body
      case Data(inner) =>
        if PhaseOf(s) != Connected then bad.value == DropDataEarly
        else bad.value == DropInner(I.InnerVerdict(inner, c.peerVip, c.localVip))
      case Pong(_) => bad.value == DropUnmatchedPong
      case Close(_) => bad.value == DropBadReason
      case _ => bad.value.DropRoster?
  }

  lemma TypeTells(c: Config, s: State, p: RxPacket, now: nat)
    ensures TypeReasons(c, s, p, TypeCheck(c, s, p.body, now).1, now)
  {
    hide P.DecodeRoster, I.InnerVerdict, PhaseOf;
  }

  lemma CountedReasons(c: Config, s: State, p: RxPacket, bad: Option<Drop>, now: nat)
    requires IsNew(s, p)
    ensures TypeReasons(c, CountAccepted(s, p.number), p, bad, now) == TypeReasons(c, s, p, bad, now)
  {
    hide R.Check, R.Record, P.DecodeRoster, I.InnerVerdict;
  }

  lemma EffectsDrop(c: Config, s: State, p: RxPacket, probe: Option<nat>, advanced: bool, now: nat)
    requires probe.Some? ==> probe.value < |s.probes|
    ensures Effects(c, s, p, probe, advanced, now).1 == if p.body.Data? && !c.hasSink then Some(DropNoSink) else None
  {
    hide Admit, Act, Settle, StartPathProbe, EnterTerminal, IsVerified;
  }

  // The reason a packet that passed the gate gets, if any.
  predicate LaterReason(c: Config, s: State, p: RxPacket, bad: Option<Drop>, drop: Option<Drop>) {
    var verdict := R.Check(s.window, p.number).verdict;
    if verdict.Duplicate? then drop == Some(DropDuplicate)
    else if verdict.TooOld? then drop == Some(DropTooOld)
    else if bad.Some? then drop == bad
    else drop == if p.body.Data? && !c.hasSink then Some(DropNoSink) else None
  }

  lemma CountKeepsProbes(s: State, number: U32)
    requires R.Check(s.window, number).Accepted()
    ensures CountAccepted(s, number).probes == s.probes
  {
  }

  lemma LaterTells(c: Config, s: State, p: RxPacket, probe: Option<nat>, now: nat) returns (bad: Option<Drop>)
    requires probe.Some? ==> probe.value < |s.probes|
    ensures LaterReason(c, s, p, bad, AfterGate(c, s, p, false, probe, now).1)
    ensures IsNew(s, p) ==> TypeReasons(c, s, p, bad, now)
  {
    hide TypeReasons, R.Record, TypeCheck, Effects, CountAccepted, R.Check, EpochGate;
    bad := None;
    if IsNew(s, p) {
      var s1 := CountAccepted(s, p.number);
      CountKeepsProbes(s, p.number);
      TypeTells(c, s1, p, now);
      bad := TypeCheck(c, s1, p.body, now).1;
      CountedReasons(c, s, p, bad, now);
      if bad.None? {
        EffectsDrop(c, TypeCheck(c, s1, p.body, now).0, p, probe, R.Check(s.window, p.number).Advanced(), now);
      }
    }
  }

  lemma LaterMeans(c: Config, s: State, p: RxPacket, bad: Option<Drop>, drop: Option<Drop>, now: nat)
    requires Active(s) && FromPeer(c, s, p, now) && LaterReason(c, s, p, bad, drop)
    requires IsNew(s, p) ==> TypeReasons(c, s, p, bad, now)
    ensures LaterReasons(c, s, p, drop, now)
    ensures drop.Some? ==> !IsGateReason(drop.value) && !drop.value.DropTerminalState?
  {
    hide FromPeer, I.InnerVerdict, P.DecodeRoster, PhaseOf, R.Check, AnswersProbe;
  }

  // A packet that met a later reason, or none, gives the gate no reason.
  lemma PassedMeans(c: Config, s: State, p: RxPacket, drop: Option<Drop>, now: nat)
    requires GateReasons(c, s, p, None, now)
    requires drop.Some? ==> !IsGateReason(drop.value) && !drop.value.DropTerminalState?
    ensures GateReasons(c, s, p, drop, now)
  {
    hide Active, Greets, AnswersProbe, OtherEpoch, TooSoon;
  }

  lemma RefusedMeans(c: Config, s: State, p: RxPacket, drop: Drop, now: nat)
    requires !FromPeer(c, s, p, now) && IsGateReason(drop)
    ensures LaterReasons(c, s, p, Some(drop), now)
  {
    hide FromPeer, I.InnerVerdict, PhaseOf, R.Check, WellFormed;
  }

  lemma FinishedMeans(c: Config, s: State, p: RxPacket, now: nat)
    requires !Active(s)
    ensures GateReasons(c, s, p, Some(DropTerminalState), now) && LaterReasons(c, s, p, Some(DropTerminalState), now)
  {
    hide FromPeer, I.InnerVerdict, R.Check, WellFormed, AnswersProbe;
  }

  lemma RenegotiationIsNotRefused(c: Config, s: State, p: RxPacket, now: nat)
    requires Active(s) && Renegotiates(c, s, p, now)
    ensures GateReasons(c, s, p, None, now) && LaterReasons(c, s, p, None, now)
  {
    hide PhaseOf, P.DecodeRoster, I.InnerVerdict, R.Check, WellFormed;
  }

  lemma ReasonsFrame(c: Config, s: State, s1: State, p: RxPacket, bad: Option<Drop>, drop: Option<Drop>, now: nat)
    requires s1 == s.(probes := s1.probes)
    ensures LaterReason(c, s1, p, bad, drop) == LaterReason(c, s, p, bad, drop)
    ensures TypeReasons(c, s1, p, bad, now) == TypeReasons(c, s, p, bad, now)
  {
    hide P.DecodeRoster, I.InnerVerdict, R.Check;
  }

  // Main result: each reason is given exactly for the packets it is true of.
  lemma RestartIsHello(c: Config, s: State, p: RxPacket, now: nat)
    requires Renegotiates(c, s, p, now)
    ensures s.pinned.Some? && p.body.Hello?
  {
  }

  lemma DropsAreTrue(c: Config, s: State, p: RxPacket, now: nat)
    ensures var drop := Receive(c, s, p, now).1;
            GateReasons(c, s, p, drop, now) && LaterReasons(c, s, p, drop, now)
  {
    hide EpochGate, AfterGate, GateReasons, LaterReasons, LaterReason, TypeReasons, FromPeer, PhaseOf, Renegotiates, Renegotiate;
    hide R.Check, Restarted;
    if !Active(s) {
      FinishedMeans(c, s, p, now);
    } else {
      var (s1, gate) := EpochGate(c, s, p, now);
      GateDecides(c, s, p, now);
      GateTells(c, s, p, now);
      if Renegotiates(c, s, p, now) {
        RestartIsHello(c, s, p, now);
        RestartedBy(c, s, p, now);
        RenegotiationIsNotRefused(c, s, p, now);
      } else if gate.Stop? {
        RefusedMeans(c, s, p, gate.drop, now);
      } else {
        var drop := AfterGate(c, s1, p, false, gate.probe, now).1;
        var bad := LaterTells(c, s1, p, gate.probe, now);
        ReasonsFrame(c, s, s1, p, bad, drop, now);
        LaterMeans(c, s, p, bad, drop, now);
        PassedMeans(c, s, p, drop, now);
      }
    }
  }
}
