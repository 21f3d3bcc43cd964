/**
 What every run of a session keeps: timers and loss baseline follow the two acknowledgement
 flags, told state changes form a path without shortcuts, loss accounting cannot underflow,
 and an attempt that does not connect ends.
 */
module SessionSafety {
  import opened Wrappers
  import opened SessionSpec
  import R = Replay

  // ---------------------------------------------------------------- the invariant

  predicate BothAcks(s: State) {
    s.gotAck && s.sentAck
  }

  predicate TimersFollowFlags(s: State) {
    if s.terminal.Some? then
      && s.terminal.value.Terminal()
      && s.helloDue.None? && s.punchDue.None? && s.keepaliveDue.None? && s.pingDue.None? && s.idleDue.None?
      && s.probes == []
    else
      && (s.keepaliveDue.Some? <==> BothAcks(s))
      && (s.pingDue.Some? <==> BothAcks(s))
      && (s.idleDue.Some? <==> BothAcks(s))
      && (s.helloDue.Some? <==> s.punchStarted && !BothAcks(s))
      && (s.punchDue.Some? <==> s.punchStarted && !BothAcks(s))
  }

  function LastPhase(notes: seq<Note>): Phase {
    if notes == [] then Punching else notes[|notes| - 1].after
  }

  // Told changes: each starts where the one before ended, none leaves a terminal state,
  // and none goes from Punching to Connected in one step.
  predicate IsPath(notes: seq<Note>) {
    forall i | 0 <= i < |notes| ::
      && notes[i].before == LastPhase(notes[..i])
      && notes[i].before != notes[i].after
      && !notes[i].before.Terminal()
      && !(notes[i].before == Punching && notes[i].after == Connected)
  }

  ghost function Counted(accepted: set<int>, baseline: int): set<int> {
    set p | p in accepted && p > baseline
  }

  ghost predicate LossAccounted(s: State, first: U32, accepted: set<int>) {
    && R.Stands(s.window, first, accepted)
    && 0 <= s.lossTotals.accepted <= s.lossTotals.expected
    && (s.lossBaseline.Some? ==>
          && s.window.initialized
          && 0 <= s.lossBaseline.value <= s.window.position
          && s.lossAccepted == |Counted(accepted, s.lossBaseline.value)|)
  }

  // What holds between the parts of one call.
  ghost predicate Core(s: State) {
    && TimersFollowFlags(s)
    && (s.lossBaseline.Some? <==> BothAcks(s))
    && IsPath(s.notes) && LastPhase(s.notes) == PhaseOf(s)
    && |s.retires| == s.renegotiations <= MAX_RENEGOTIATIONS
    && exists first: U32, accepted: set<int> :: LossAccounted(s, first, accepted)
  }

  // What holds between calls.
  ghost predicate Inv(s: State) {
    Core(s) && (s.pinned.Some? <==> s.window.initialized)
  }

  // ---------------------------------------------------------------- small steps

  lemma PathGrows(notes: seq<Note>, n: Note)
    requires IsPath(notes) && n.before == LastPhase(notes) && n.before != n.after && !n.before.Terminal()
    requires !(n.before == Punching && n.after == Connected)
    ensures IsPath(notes + [n]) && LastPhase(notes + [n]) == n.after
  {
    var longer := notes + [n];
    forall i | 0 <= i < |longer|
      ensures longer[i].before == LastPhase(longer[..i])
      ensures longer[i].before != longer[i].after && !longer[i].before.Terminal()
      ensures !(longer[i].before == Punching && longer[i].after == Connected)
    {
      if i < |notes| {
        assert longer[..i] == notes[..i];
      } else {
        assert longer[..i] == notes;
      }
    }
  }

  lemma CountedIsSmall(accepted: set<int>, baseline: int, top: int)
    requires baseline <= top && forall p | p in accepted :: p <= top
    ensures |Counted(accepted, baseline)| <= top - baseline
    decreases top - baseline
  {
    var here := Counted(accepted, baseline);
    if baseline < top {
      CountedIsSmall(accepted, baseline + 1, top);
      assert here == Counted(accepted, baseline + 1) + (if baseline + 1 in accepted then {baseline + 1} else {});
    } else {
      assert here == {};
    }
  }

  // The subtraction expected - accepted of the loss report never wraps.
  lemma LossNeverUnderflows(s: State)
    requires Core(s)
    ensures 0 <= LossOf(s).accepted <= LossOf(s).expected
  {
    var first: U32, accepted: set<int> :| LossAccounted(s, first, accepted);
    if s.lossBaseline.Some? {
      CountedIsSmall(accepted, s.lossBaseline.value, s.window.position);
    }
  }

  lemma EnterTerminalKeeps(s: State, phase: Phase, now: nat)
    requires phase.Terminal() && s.terminal.None? && IsPath(s.notes) && LastPhase(s.notes) == PhaseOf(s)
    requires (s.lossBaseline.Some? <==> BothAcks(s)) && |s.retires| == s.renegotiations <= MAX_RENEGOTIATIONS
    requires exists first: U32, accepted: set<int> :: LossAccounted(s, first, accepted)
    ensures Core(EnterTerminal(s, phase, now))
    ensures EnterTerminal(s, phase, now).pinned == s.pinned && EnterTerminal(s, phase, now).window == s.window
  {
    var first: U32, accepted: set<int> :| LossAccounted(s, first, accepted);
    assert LossAccounted(EnterTerminal(s, phase, now), first, accepted);
    PathGrows(s.notes, Note(PhaseOf(s), phase));
  }

  lemma FailKeeps(c: Config, s: State, failure: Failure, now: nat)
    requires Core(s) && s.terminal.None?
    ensures Core(Fail(c, s, failure, now))
    ensures Fail(c, s, failure, now).pinned == s.pinned && Fail(c, s, failure, now).window == s.window
  {
    var first: U32, accepted: set<int> :| LossAccounted(s, first, accepted);
    var s1 := StopTimers(s);
    var s2 := if s1.endpoint.Some? then SendPacket(c, s1, Close(3), s1.endpoint.value, now).0 else s1;
    var s3 := s2.(failure := Some(failure));
    assert LossAccounted(s3, first, accepted);
    EnterTerminalKeeps(s3, Failed, now);
  }

  // Fields outside the invariant may change freely.
  lemma CoreFrame(s: State, t: State)
    requires Core(s)
    requires t == s.(helloDue := t.helloDue, punchDue := t.punchDue, keepaliveDue := t.keepaliveDue,
                     pingDue := t.pingDue, idleDue := t.idleDue,
                     pinned := t.pinned, pings := t.pings, nextPing := t.nextPing, lastGeneration := t.lastGeneration,
                     probes := t.probes, budget := t.budget, budgetAt := t.budgetAt, draws := t.draws,
                     nextSeq := t.nextSeq, endpoint := t.endpoint, out := t.out, inbox := t.inbox, peerClose := t.peerClose)
    requires TimersFollowFlags(t)
    ensures Core(t)
  {
    var first: U32, accepted: set<int> :| LossAccounted(s, first, accepted);
    assert LossAccounted(t, first, accepted);
  }

  lemma NoFreshLossInWindow(s: State, first: U32, accepted: set<int>)
    requires LossAccounted(s, first, accepted) && s.window.initialized
    ensures Counted(accepted, s.window.position) == {}
  {
  }

  // A change of flags followed by Settle.
  lemma SettleKeeps(c: Config, s: State, t: State, now: nat)
    requires Core(s) && s.terminal.None? && t.terminal.None?
    requires t == s.(gotAck := t.gotAck, sentAck := t.sentAck, budget := t.budget, budgetAt := t.budgetAt,
                     nextSeq := t.nextSeq, out := t.out, pings := t.pings, lastGeneration := t.lastGeneration,
                     inbox := t.inbox, probes := t.probes, draws := t.draws)
    requires (s.gotAck ==> t.gotAck) && (s.sentAck ==> t.sentAck)
    requires t.gotAck == s.gotAck || t.sentAck == s.sentAck
    requires BothAcks(t) ==> s.window.initialized
    ensures Core(Settle(c, t, PhaseOf(s), now))
    ensures Settle(c, t, PhaseOf(s), now).pinned == s.pinned && Settle(c, t, PhaseOf(s), now).window == s.window
  {
    var first: U32, accepted: set<int> :| LossAccounted(s, first, accepted);
    var r := Settle(c, t, PhaseOf(s), now);
    if PhaseOf(t) != PhaseOf(s) {
      PathGrows(s.notes, Note(PhaseOf(s), PhaseOf(t)));
      if PhaseOf(t) == Connected {
        NoFreshLossInWindow(s, first, accepted);
      }
    }
    assert LossAccounted(r, first, accepted);
  }

  lemma RenegotiateKeeps(c: Config, s: State, epoch: U32, nonce: Nonce, from: Endpoint, now: nat)
    requires Core(s) && s.terminal.None? && s.pinned.Some? && s.renegotiations < MAX_RENEGOTIATIONS
    ensures var r := Renegotiate(c, s, epoch, nonce, from, now);
            && Core(r) && r.terminal.None? && !BothAcks(r)
            && r.pinned == Some(epoch) && r.window == R.Fresh()
            && r.renegotiations == s.renegotiations + 1 && r.retires == s.retires + [Retire(s.pinned.value, now)]
            && r.punchStarted == s.punchStarted
            && (r.punchStarted ==> r.punchDue == Some(now + PUNCH_DEADLINE))
  {
    LossNeverUnderflows(s);
    var r := Renegotiate(c, s, epoch, nonce, from, now);
    if PhaseOf(r) != PhaseOf(s) {
      PathGrows(s.notes, Note(PhaseOf(s), PhaseOf(r)));
    }
    assert LossAccounted(r, 0, {});
  }

  lemma GateHello(c: Config, s: State, p: RxPacket, now: nat)
    requires Inv(s) && Active(s) && p.body.Hello?
    ensures GateKept(c, s, p, now)
  {
    var (r, gate) := EpochGate(c, s, p, now);
    if gate.Go? && gate.renegotiated {
      RenegotiateKeeps(c, s, p.epoch, p.body.nonce, p.from, now);
    }
  }

  lemma GateHelloAck(c: Config, s: State, p: RxPacket, now: nat)
    requires Inv(s) && Active(s) && p.body.HelloAck?
    ensures GateKept(c, s, p, now)
  {
    CoreFrame(s, ExpireProbes(s, now));
  }

  ghost predicate GateKept(c: Config, s: State, p: RxPacket, now: nat) {
    var (r, gate) := EpochGate(c, s, p, now);
    && Core(r) && r.terminal.None?
    && (gate.Stop? || !gate.renegotiated ==> Inv(r) && r == s.(probes := r.probes))
    && (gate.Go? && gate.renegotiated ==>
          && r.window == R.Fresh() && r.pinned.Some? && p.body.Hello?
          && r.renegotiations == s.renegotiations + 1 && r.punchStarted == s.punchStarted
          && (r.punchStarted ==> r.punchDue == Some(now + PUNCH_DEADLINE)))
    && (gate.Go? && r.pinned.None? ==> p.body.Hello? || p.body.HelloAck?)
  }

  lemma GateKeeps(c: Config, s: State, p: RxPacket, now: nat)
    requires Inv(s) && Active(s)
    ensures GateKept(c, s, p, now)
  {
    if p.body.Hello? {
      GateHello(c, s, p, now);
    } else if p.body.HelloAck? {
      GateHelloAck(c, s, p, now);
    }
  }

  lemma CountKeeps(s: State, number: U32)
    requires Core(s) && s.terminal.None? && R.Check(s.window, number).Accepted()
    ensures Core(CountAccepted(s, number)) && CountAccepted(s, number).window.initialized
  {
    var first: U32, accepted: set<int> :| LossAccounted(s, first, accepted);
    CountedGrows(s, number, first, accepted);
  }

  lemma CountedGrows(s: State, number: U32, first: U32, accepted: set<int>)
    requires LossAccounted(s, first, accepted) && R.Check(s.window, number).Accepted()
    ensures CountAccepted(s, number).window.initialized
    ensures LossAccounted(CountAccepted(s, number), if s.window.initialized then first else number,
                          accepted + {R.Check(s.window, number).pktPos})
  {
    R.AcceptRefinesSet(s.window, first, accepted, number);
    var d := R.Check(s.window, number);
    if s.lossBaseline.Some? {
      var b := s.lossBaseline.value;
      assert Counted(accepted + {d.pktPos}, b) == Counted(accepted, b) + (if d.pktPos > b then {d.pktPos} else {});
    }
  }

  lemma AdmitKeeps(c: Config, s: State, p: RxPacket, probe: Option<nat>, advanced: bool, now: nat)
    requires probe.Some? ==> probe.value < |s.probes|
    requires Core(s) && s.terminal.None? && s.window.initialized
    ensures var t := Admit(c, s, p, probe, advanced, now);
            && Core(t) && t.pinned.Some? && t.terminal.None? && t.window == s.window && PhaseOf(t) == PhaseOf(s)
  {
    CoreFrame(s, Admit(c, s, p, probe, advanced, now));
  }

  lemma CloseKeeps(s: State, reason: Byte, now: nat)
    requires Core(s) && s.terminal.None? && s.window.initialized && s.pinned.Some?
    ensures Inv(EnterTerminal(s.(peerClose := Some(reason)), Closed, now))
  {
    var t := s.(peerClose := Some(reason));
    CoreFrame(s, t);
    EnterTerminalKeeps(t, Closed, now);
  }

  lemma ActThenSettleKeeps(c: Config, s: State, p: RxPacket, probe: Option<nat>, search: bool, now: nat)
    requires !p.body.Close? && Core(s) && s.terminal.None? && s.window.initialized && s.pinned.Some?
    ensures var t := Act(c, s, p, probe, PhaseOf(s), now);
            Inv(Settle(c, if search then StartPathProbe(c, t, p.from, now) else t, PhaseOf(s), now))
  {
    var t := Act(c, s, p, probe, PhaseOf(s), now);
    SettleKeeps(c, s, if search then StartPathProbe(c, t, p.from, now) else t, now);
  }

  lemma EffectsKeep(c: Config, s: State, p: RxPacket, probe: Option<nat>, advanced: bool, now: nat)
    requires probe.Some? ==> probe.value < |s.probes|
    requires Core(s) && s.terminal.None? && s.window.initialized
    ensures Inv(Effects(c, s, p, probe, advanced, now).0)
  {
    AdmitKeeps(c, s, p, probe, advanced, now);
    var t := Admit(c, s, p, probe, advanced, now);
    if p.body.Close? {
      CloseKeeps(t, p.body.reason, now);
    } else {
      ActThenSettleKeeps(c, t, p, probe, probe.None? && advanced && !IsVerified(c, s, p.from), now);
    }
  }

  lemma AfterGateKeeps(c: Config, s: State, p: RxPacket, renegotiated: bool, probe: Option<nat>, now: nat)
    requires probe.Some? ==> probe.value < |s.probes|
    requires Core(s) && s.terminal.None?
    requires !renegotiated ==> Inv(s)
    requires renegotiated ==> s.window == R.Fresh() && s.pinned.Some? && p.body.Hello?
    requires s.pinned.None? ==> p.body.Hello? || p.body.HelloAck?
    ensures Inv(AfterGate(c, s, p, renegotiated, probe, now).0)
  {
    var d := R.Check(s.window, p.number);
    if d.Accepted() {
      CountKeeps(s, p.number);
      var s1 := CountAccepted(s, p.number);
      var (s2, bad) := TypeCheck(c, s1, p.body, now);
      CoreFrame(s1, s2);
      hide TypeCheck, CountAccepted, Core, Effects, R.Check;
      if bad.None? {
        if renegotiated {
          if !IsVerified(c, s2, p.from) {
            CoreFrame(s2, StartPathProbe(c, s2, p.from, now));
          }
        } else {
          EffectsKeep(c, s2, p, probe, d.Advanced(), now);
        }
      }
    }
  }

  // ---------------------------------------------------------------- one event

  lemma ReceiveKeeps(c: Config, s: State, p: RxPacket, now: nat)
    requires Inv(s)
    ensures Inv(Receive(c, s, p, now).0)
  {
    if Active(s) {
      GateKeeps(c, s, p, now);
      var (s1, gate) := EpochGate(c, s, p, now);
      if gate.Go? {
        AfterGateKeeps(c, s1, p, gate.renegotiated, gate.probe, now);
      }
    }
  }

  lemma CloseByUserKeeps(c: Config, s: State, now: nat)
    requires Inv(s)
    ensures Inv(CloseByUser(c, s, now))
  {
    if Active(s) {
      var reason := if PhaseOf(s) == Connected then 0 else 1;
      var s1 := if s.endpoint.Some? then SendPacket(c, s, Close(reason), s.endpoint.value, now).0 else s;
      CoreFrame(s, s1);
      EnterTerminalKeeps(s1, Closed, now);
    }
  }

  lemma StepKeeps(c: Config, s: State, e: Event)
    requires Inv(s)
    ensures Inv(Step(c, s, e))
  {
    match e
    case EvReceive(p, now) => ReceiveKeeps(c, s, p, now);
    case EvPoll(now) => PollKeeps(c, s, now);
    case EvStartPunch(now) => StartPunchKeeps(c, s, now);
    case EvClose(now) => CloseByUserKeeps(c, s, now);
    case EvSendData(inner, now) => CoreFrame(s, Step(c, s, e));
    case EvSendRoster(payload, now) => CoreFrame(s, Step(c, s, e));
  }

  lemma PollKeeps(c: Config, s: State, now: nat)
    requires Inv(s)
    ensures Inv(Poll(c, s, now))
  {
    if Active(s) {
      var s1 := ExpireProbes(s, now);
      CoreFrame(s, s1);
      if Due(s1.punchDue, now) {
        FailKeeps(c, s1, if s1.gotAck || s1.sentAck then PeerHandshakeFailed else HolePunchTimeout, now);
      } else if Due(s1.idleDue, now) {
        FailKeeps(c, s1, TunnelDropped, now);
      } else {
        CoreFrame(s1, PollPeriodic(c, s1, now));
      }
    }
  }

  lemma StartPunchKeeps(c: Config, s: State, now: nat)
    requires Inv(s)
    ensures Inv(StartPunch(c, s, now).0)
  {
    var t := StartPunch(c, s, now).0;
    var first: U32, accepted: set<int> :| LossAccounted(s, first, accepted);
    assert LossAccounted(t, first, accepted);
  }

  // ---------------------------------------------------------------- every run

  lemma InitialInv(now: nat)
    ensures Inv(Initial(now))
  {
    assert LossAccounted(Initial(now), 0, {});
  }

  lemma {:induction false} RunKeeps(c: Config, s: State, events: seq<Event>)
    requires Inv(s)
    ensures Inv(Run(c, s, events))
  {
    if events != [] {
      RunKeeps(c, s, events[..|events| - 1]);
      StepKeeps(c, Run(c, s, events[..|events| - 1]), events[|events| - 1]);
    }
  }

  // Main result: whatever arrives, in whatever order, from the start of the attempt.
  lemma EveryRunIsSafe(c: Config, start: nat, events: seq<Event>)
    ensures var s := Run(c, Initial(start), events);
            && TimersFollowFlags(s)
            && (s.lossBaseline.Some? <==> BothAcks(s))
            && IsPath(s.notes) && LastPhase(s.notes) == PhaseOf(s)
            && 0 <= LossOf(s).accepted <= LossOf(s).expected
            && |s.retires| <= MAX_RENEGOTIATIONS
            && (s.pinned.Some? <==> s.window.initialized)
  {
    InitialInv(start);
    RunKeeps(c, Initial(start), events);
    LossNeverUnderflows(Run(c, Initial(start), events));
  }

  // Terminal states stay: after one is reached no event changes phase, timers, flags or notes.
  lemma TerminalIsAbsorbing(c: Config, s: State, e: Event)
    requires Inv(s) && !Active(s)
    ensures var t := Step(c, s, e);
            t == s.(nextSeq := t.nextSeq, out := t.out)
  {
  }

  // ---------------------------------------------------------------- an attempt that never connects ends

  // No event comes after an armed punch deadline: the owner polls at it.
  ghost predicate Punctual(c: Config, s: State, events: seq<Event>) {
    forall i | 0 <= i < |events| ::
      var before := Run(c, s, events[..i]);
      before.punchDue.Some? ==> events[i].now <= before.punchDue.value
  }

  ghost predicate NeverConnected(c: Config, s: State, events: seq<Event>) {
    forall i | 0 <= i <= |events| :: PhaseOf(Run(c, s, events[..i])) != Connected
  }

  // Start of the punch plus ten seconds for each renegotiation so far.
  predicate DeadlineBounded(s: State, start: nat) {
    && s.punchStarted
    && (s.punchDue.Some? ==> s.punchDue.value <= start + PUNCH_DEADLINE * (1 + s.renegotiations))
  }

  lemma StepBoundsDeadline(c: Config, s: State, e: Event, start: nat)
    requires Inv(s) && PhaseOf(s) != Connected && DeadlineBounded(s, start)
    requires s.punchDue.Some? ==> e.now <= s.punchDue.value
    ensures DeadlineBounded(Step(c, s, e), start)
  {
    if e.EvReceive? && Active(s) {
      GateKeeps(c, s, e.packet, e.now);
      var (s1, gate) := EpochGate(c, s, e.packet, e.now);
      if gate.Go? && gate.renegotiated {
        assert s.punchDue.Some?;
      }
      assert DeadlineBounded(s1, start);
    }
  }

  lemma {:induction false} RunBoundsDeadline(c: Config, s: State, events: seq<Event>, start: nat)
    requires Inv(s) && DeadlineBounded(s, start) && Punctual(c, s, events) && NeverConnected(c, s, events)
    ensures DeadlineBounded(Run(c, s, events), start)
  {
    if events != [] {
      var n := |events| - 1;
      var shorter := events[..n];
      assert forall i | 0 <= i <= n :: shorter[..i] == events[..i];
      RunBoundsDeadline(c, s, shorter, start);
      RunKeeps(c, s, shorter);
      assert events[..n] == shorter;
      StepBoundsDeadline(c, Run(c, s, shorter), events[n], start);
    }
  }

  // A session whose punch began at start, polled at its deadlines and never connected, is over
  // when an event comes more than 10 s * (1 + 8) later.
  lemma PunchEndsWithin90Seconds(c: Config, s: State, start: nat, events: seq<Event>, last: Event)
    requires Inv(s) && Active(s) && !s.punchStarted && PhaseOf(s) != Connected
    requires var s1 := StartPunch(c, s, start).0;
             Punctual(c, s1, events + [last]) && NeverConnected(c, s1, events + [last])
    requires last.now > start + 90000
    ensures PhaseOf(Run(c, StartPunch(c, s, start).0, events)).Terminal()
  {
    var s1 := StartPunch(c, s, start).0;
    var all := events + [last];
    StartPunchKeeps(c, s, start);
    assert all[..|events|] == events;
    assert forall i | 0 <= i <= |events| :: all[..i] == events[..i];
    assert Punctual(c, s1, events) by {
      forall i | 0 <= i < |events|
        ensures var before := Run(c, s1, events[..i]); before.punchDue.Some? ==> events[i].now <= before.punchDue.value
      {
        assert all[i] == events[i];
      }
    }
    RunBoundsDeadline(c, s1, events, start);
    RunKeeps(c, s1, events);
    var t := Run(c, s1, events);
    assert all[|events|] == last;
    assert PhaseOf(t) != Connected;
  }
}
