/**
 The roster at a player's session (client/src/peer/session.cpp): over whole runs, with everything
 else a session does in between, the generation it holds never falls, and is always that of a roster
 the host published.
 */
module RosterReception {
  import opened Wrappers
  import opened SessionSpec
  import P = Packet
  import B = RosterPublisher
  import R = Replay
  import D = SessionReception

  // ---------------------------------------------------------------- one event

  lemma SettleHolds(c: Config, s: State, before: Phase, now: nat)
    ensures Settle(c, s, before, now).lastGeneration == s.lastGeneration
  {
    hide EnterConnected;
  }

  // A renegotiation forgets the old epoch, but not the roster.
  lemma RenegotiateHolds(c: Config, s: State, epoch: U32, nonce: Nonce, from: Endpoint, now: nat)
    requires s.pinned.Some?
    ensures Renegotiate(c, s, epoch, nonce, from, now).lastGeneration == s.lastGeneration
  {
    hide SendHelloAck, RestartPunch, Settle, LossOf;
    var s2 := SendHelloAck(c, Reset(s, epoch, now), nonce, from, now);
    var s3 := s2.(keepaliveDue := None, pingDue := None, idleDue := None);
    SettleHolds(c, RestartPunch(c, s3, now), PhaseOf(s), now);
  }

  lemma GateHolds(c: Config, s: State, p: RxPacket, now: nat)
    ensures EpochGate(c, s, p, now).0.lastGeneration == s.lastGeneration
  {
    hide Renegotiate, FindProbe, ExpireProbes;
    if p.body.Hello? && s.pinned.Some? {
      RenegotiateHolds(c, s, p.epoch, p.body.nonce, p.from, now);
    }
  }

  // The generation moves only by a roster that this session decodes in its present state.
  ghost predicate Moves(c: Config, s: State, p: RxPacket, r: State) {
    || r.lastGeneration == s.lastGeneration
    || (p.body.Roster?
        && var d := P.DecodeRoster(p.body.payload, RosterContextOf(c, s));
           d.RosterOk? && r.lastGeneration == Some(d.roster.generation))
  }

  lemma ActMoves(c: Config, s: State, p: RxPacket, probe: Option<nat>, before: Phase, now: nat)
    requires !p.body.Close?
    ensures Moves(c, s, p, Act(c, s, p, probe, before, now))
  {
    hide SendHelloAck, SpendFor, SendPacket, P.DecodeRoster;
  }

  lemma EffectsMove(c: Config, s: State, p: RxPacket, probe: Option<nat>, advanced: bool, now: nat)
    requires probe.Some? ==> probe.value < |s.probes|
    ensures Moves(c, s, p, Effects(c, s, p, probe, advanced, now).0)
  {
    hide Admit, Act, Settle, StartPathProbe, IsVerified, P.DecodeRoster, PhaseOf;
    var before := PhaseOf(s);
    var s1 := Admit(c, s, p, probe, advanced, now);
    if !p.body.Close? {
      ActMoves(c, s1, p, probe, before, now);
      var s2 := Act(c, s1, p, probe, before, now);
      SettleHolds(c, s2, before, now);
      SettleHolds(c, StartPathProbe(c, s2, p.from, now), before, now);
    }
  }

  lemma AfterGateMoves(c: Config, s: State, p: RxPacket, renegotiated: bool, probe: Option<nat>, now: nat)
    requires probe.Some? ==> probe.value < |s.probes|
    ensures Moves(c, s, p, AfterGate(c, s, p, renegotiated, probe, now).0)
  {
    hide Effects, StartPathProbe, IsVerified, P.DecodeRoster;
    if R.Check(s.window, p.number).Accepted() {
      var s2 := TypeCheck(c, CountAccepted(s, p.number), p.body, now).0;
      EffectsMove(c, s2, p, probe, R.Check(s.window, p.number).Advanced(), now);
      hide TypeCheck;
    }
  }

  lemma ReceiveMoves(c: Config, s: State, p: RxPacket, now: nat)
    ensures Moves(c, s, p, Receive(c, s, p, now).0)
  {
    hide EpochGate, AfterGate, P.DecodeRoster;
    var (s1, gate) := EpochGate(c, s, p, now);
    GateHolds(c, s, p, now);
    if gate.Go? {
      GateProbe(c, s, p, now);
      AfterGateMoves(c, s1, p, gate.renegotiated, gate.probe, now);
    }
  }

  lemma GateProbe(c: Config, s: State, p: RxPacket, now: nat)
    ensures var (s1, gate) := EpochGate(c, s, p, now);
            gate.Go? && gate.probe.Some? ==> gate.probe.value < |s1.probes|
  {
    hide Renegotiate, ExpireProbes;
  }

  lemma FailHolds(c: Config, s: State, failure: Failure, now: nat)
    ensures Fail(c, s, failure, now).lastGeneration == s.lastGeneration
  {
    hide SendPacket, PhaseOf;
  }

  lemma PollHolds(c: Config, s: State, now: nat)
    ensures Poll(c, s, now).lastGeneration == s.lastGeneration
  {
    hide PollPeriodic, Fail, ExpireProbes, PhaseOf;
    var s1 := ExpireProbes(s, now);
    FailHolds(c, s1, if s1.gotAck || s1.sentAck then PeerHandshakeFailed else HolePunchTimeout, now);
    FailHolds(c, s1, TunnelDropped, now);
  }

  lemma CloseHolds(c: Config, s: State, now: nat)
    ensures CloseByUser(c, s, now).lastGeneration == s.lastGeneration
  {
    hide SendPacket, PhaseOf;
  }

  lemma OthersHold(c: Config, s: State, e: Event)
    requires !e.EvReceive?
    ensures Step(c, s, e).lastGeneration == s.lastGeneration
  {
    hide Poll, CloseByUser, HelloRound, SendToPeer, SendData, PhaseOf;
    match e
    case EvPoll(now) => PollHolds(c, s, now);
    case EvClose(now) => CloseHolds(c, s, now);
    case _ =>
  }

  // ---------------------------------------------------------------- whole runs

  predicate NotBelow(a: Option<U32>, b: Option<U32>) {
    a.Some? ==> b.Some? && a.value <= b.value
  }

  lemma StepNotBelow(c: Config, s: State, e: Event)
    ensures NotBelow(s.lastGeneration, Step(c, s, e).lastGeneration)
  {
    hide Receive, Poll, StartPunch, CloseByUser;
    if e.EvReceive? {
      ReceiveMoves(c, s, e.packet, e.now);
      if e.packet.body.Roster? {
        AcceptedIsAcceptable(e.packet.body.payload, RosterContextOf(c, s));
      }
    } else {
      OthersHold(c, s, e);
    }
    hide P.DecodeRoster;
  }

  lemma AcceptedIsAcceptable(payload: seq<Byte>, context: P.RosterContext)
    ensures var d := P.DecodeRoster(payload, context);
            d.RosterOk? ==> P.GenerationAcceptable(context, d.roster.generation)
  {
    var d := P.DecodeRoster(payload, context);
    if d.RosterOk? {
      P.DecodeThenEncode(payload, context, d.roster);
    }
  }

  // Main result: whatever arrives and however often the session renegotiates, the generation it holds
  // never falls from one moment of a run to a later one.
  lemma {:induction false} GenerationNeverFalls(c: Config, start: nat, events: seq<Event>, k: nat, n: nat)
    requires k <= n <= |events|
    ensures NotBelow(Run(c, Initial(start), events[..k]).lastGeneration, Run(c, Initial(start), events[..n]).lastGeneration)
    decreases n
  {
    hide Run, Step;
    if k < n {
      GenerationNeverFalls(c, start, events, k, n - 1);
      D.StepAt(c, Initial(start), events, n - 1);
      StepNotBelow(c, Run(c, Initial(start), events[..n - 1]), events[n - 1]);
    }
  }

  // Every roster that reaches the session was published: lost, repeated or out of order as the network likes.
  ghost predicate AllPublished(log: seq<B.Sent>, events: seq<Event>) {
    forall k | 0 <= k < |events| && events[k].EvReceive? && events[k].packet.body.Roster? ::
      B.IsPublished(log, events[k].packet.body.payload)
  }

  ghost predicate PublishedAs(log: seq<B.Sent>, generation: Option<U32>) {
    generation.Some? ==> exists i :: 0 <= i < |log| && log[i].roster.generation == generation.value
  }

  // Main result: the generation a session holds is always one under which the host published.
  lemma {:induction false} GenerationIsPublished(log: seq<B.Sent>, c: Config, start: nat, events: seq<Event>)
    requires AllPublished(log, events)
    ensures PublishedAs(log, Run(c, Initial(start), events).lastGeneration)
  {
    if events != [] {
      var n := |events| - 1;
      var e := events[n];
      assert AllPublished(log, events[..n]);
      GenerationIsPublished(log, c, start, events[..n]);
      D.StepAt(c, Initial(start), events, n);
      assert events[..n + 1] == events;
      var s := Run(c, Initial(start), events[..n]);
      hide Run, Receive, Poll, StartPunch, CloseByUser, P.DecodeRoster;
      if e.EvReceive? {
        ReceiveMoves(c, s, e.packet, e.now);
        if e.packet.body.Roster? {
          AcceptedIsPublished(log, e.packet.body.payload, RosterContextOf(c, s));
        }
      } else {
        OthersHold(c, s, e);
      }
    }
  }

  lemma AcceptedIsPublished(log: seq<B.Sent>, payload: seq<Byte>, context: P.RosterContext)
    requires B.IsPublished(log, payload)
    ensures var d := P.DecodeRoster(payload, context);
            d.RosterOk? ==> PublishedAs(log, Some(d.roster.generation))
  {
    hide P.DecodeRoster;
    var d := P.DecodeRoster(payload, context);
    if d.RosterOk? {
      B.DecodedIsPublished(log, payload, context, d.roster);
    }
  }
}
