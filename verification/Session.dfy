/**
 The session as the object of client/src/peer/session.cpp: one method per member function,
 updating the fields in place, each proved against the function of SessionSpec on the value
 View() that the fields make up.
 */
module Session {
  import opened Wrappers
  import opened SessionSpec
  import R = Replay
  import I = Ipv4
  import P = Packet

  class Session {
    const c: Config
    const window: R.ReplayWindow

    var gotAck: bool
    var sentAck: bool
    var terminal: Option<Phase>
    var terminalSince: Option<nat>
    var failure: Option<Failure>
    var peerClose: Option<Byte>
    var pinned: Option<U32>
    var lossBaseline: Option<int>
    var lossAccepted: int
    var lossTotals: Loss
    var nextSeq: U32
    var endpoint: Option<Endpoint>
    var renegotiations: nat
    var lastRenegotiation: Option<nat>
    var pings: map<nat, nat>
    var nextPing: nat
    var lastGeneration: Option<U32>
    var probes: seq<Probe>
    var budget: Tokens
    var budgetAt: nat
    var draws: nat
    var punchStarted: bool
    var helloDue: Option<nat>
    var punchDue: Option<nat>
    var keepaliveDue: Option<nat>
    var pingDue: Option<nat>
    var idleDue: Option<nat>
    var out: seq<Datagram>
    var retires: seq<Retire>
    var notes: seq<Note>
    var inbox: seq<seq<Byte>>

    function View(): State
      reads this, window
    {
      State(gotAck, sentAck, terminal, terminalSince, failure, peerClose, pinned, window.State(),
            lossBaseline, lossAccepted, lossTotals, nextSeq, endpoint, renegotiations, lastRenegotiation,
            pings, nextPing, lastGeneration, probes, budget, budgetAt, draws, punchStarted,
            helloDue, punchDue, keepaliveDue, pingDue, idleDue, out, retires, notes, inbox)
    }

    constructor (config: Config, now: nat)
      ensures c == config && fresh(window) && View() == Initial(now)
    {
      c := config;
      window := new R.ReplayWindow();
      gotAck, sentAck, terminal, terminalSince, failure, peerClose := false, false, None, None, None, None;
      pinned, lossBaseline, lossAccepted, lossTotals := None, None, 0, Loss(0, 0);
      nextSeq, endpoint, renegotiations, lastRenegotiation := 0, None, 0, None;
      pings, nextPing, lastGeneration, probes := map[], 0, None, [];
      budget, budgetAt, draws, punchStarted := TOKEN_CAPACITY, now, 0, false;
      helloDue, punchDue, keepaliveDue, pingDue, idleDue := None, None, None, None, None;
      out, retires, notes, inbox := [], [], [], [];
    }

    method Phase() returns (p: Phase)
      ensures p == PhaseOf(View())
    {
      if terminal.Some? {
        return terminal.value;
      }
      if gotAck && sentAck {
        return Connected;
      }
      if gotAck || sentAck {
        return Handshaking;
      }
      return Punching;
    }

    method LossStats() returns (stats: Loss)
      ensures stats == LossOf(View())
    {
      stats := lossTotals;
      if lossBaseline.Some? {
        stats := Loss(stats.expected + (window.position - lossBaseline.value), stats.accepted + lossAccepted);
      }
    }

    method IsVerifiedAddress(e: Endpoint) returns (yes: bool)
      ensures yes <==> IsVerified(c, View(), e)
    {
      for i := 0 to |c.candidates|
        invariant e !in c.candidates[..i]
      {
        if c.candidates[i] == e {
          return true;
        }
      }
      return endpoint == Some(e);
    }

    // The earliest timer of the five, or the expiry of the oldest probe; the first in this order when two are equal.
    method NextDeadlineOf() returns (earliest: Option<nat>)
      ensures earliest == NextDeadline(View())
    {
      earliest := None;
      var timers := [helloDue, punchDue, keepaliveDue, pingDue, idleDue];
      ghost var v := View();
      for i := 0 to 5
        invariant |timers| == 5
        invariant earliest == EarliestOf(timers[..i])
      {
        assert timers[..i + 1][..i] == timers[..i];
        var d := timers[i];
        if d.Some? && (earliest.None? || d.value < earliest.value) {
          earliest := d;
        }
      }
      assert timers[..5] == timers;
      EarliestOfFive(helloDue, punchDue, keepaliveDue, pingDue, idleDue);
      if probes != [] {
        var due := probes[0].registered + PROBE_TTL;
        if earliest.None? || due < earliest.value {
          earliest := Some(due);
        }
      }
    }

    // ---------------------------------------------------------------- sending

    method Send(body: Body, to: Endpoint, now: nat) returns (taken: bool)
      modifies `nextSeq, `out
      ensures (View(), taken) == SendPacket(c, old(View()), body, to, now)
    {
      var number := TakeNumber();
      if !LengthOk(body) {
        return false;
      }
      taken := c.net(|out|);
      out := out + [Datagram(now, to, body, number, taken, endpoint)];
    }

    method TakeNumber() returns (number: U32)
      modifies `nextSeq
      ensures number == old(View()).nextSeq && View() == old(View()).(nextSeq := (number + 1) % TWO32)
    {
      number := nextSeq;
      nextSeq := (nextSeq + 1) % TWO32;
    }

    method SendToCandidates(body: Body, now: nat)
      modifies `nextSeq, `out
      ensures View() == SendEach(c, old(View()), body, c.candidates, now)
    {
      for i := 0 to |c.candidates|
        invariant SendEach(c, View(), body, c.candidates[i..], now) == SendEach(c, old(View()), body, c.candidates, now)
      {
        assert c.candidates[i..][1..] == c.candidates[i + 1..];
        var _ := Send(body, c.candidates[i], now);
      }
    }

    method SendToThePeer(body: Body, now: nat)
      modifies `nextSeq, `out
      ensures View() == SendToPeer(c, old(View()), body, now)
    {
      if endpoint.Some? {
        var _ := Send(body, endpoint.value, now);
        return;
      }
      SendToCandidates(body, now);
    }

    method SendInner(inner: seq<Byte>, now: nat) returns (taken: bool)
      modifies `nextSeq, `out
      ensures (View(), taken) == SendData(c, old(View()), inner, now)
    {
      if endpoint.Some? {
        taken := Send(Data(inner), endpoint.value, now);
        return;
      }
      for i := 0 to |c.candidates|
        invariant SendWhileTaken(c, View(), Data(inner), c.candidates[i..], now)
                  == SendWhileTaken(c, old(View()), Data(inner), c.candidates, now)
      {
        assert c.candidates[i..][1..] == c.candidates[i + 1..];
        taken := Send(Data(inner), c.candidates[i], now);
        if !taken {
          return;
        }
      }
      return true;
    }

    method SendHelloRound(now: nat)
      modifies `nextSeq, `out
      ensures View() == HelloRound(c, old(View()), now)
    {
      SendToCandidates(Hello(c.attemptNonce, c.localVip), now);
    }

    method Spend(to: Endpoint, now: nat) returns (may: bool)
      modifies `budget, `budgetAt
      ensures (View(), may) == SpendFor(c, old(View()), to, now)
    {
      var verified := IsVerifiedAddress(to);
      if verified {
        return true;
      }
      Refill(now);
      if budget < TOKEN_COST {
        return false;
      }
      budget := budget - TOKEN_COST;
      return true;
    }

    method Refill(now: nat)
      modifies `budget, `budgetAt
      ensures View() == old(View()).(budget := Refilled(old(View()).budget, old(View()).budgetAt, now),
                                     budgetAt := if now > old(View()).budgetAt then now else old(View()).budgetAt)
    {
      if now > budgetAt {
        var room := TOKEN_CAPACITY - budget;
        var elapsed := Min(now - budgetAt, room);
        budget := budget + Min(room, elapsed * TOKEN_REFILL);
        SetBudgetAt(now);
      }
    }

    method SetBudgetAt(now: nat)
      modifies `budgetAt
      ensures View() == old(View()).(budgetAt := now)
    {
      budgetAt := now;
    }

    // ---------------------------------------------------------------- probes and pings

    method ExpireOldProbes(now: nat)
      modifies `probes
      ensures View() == ExpireProbes(old(View()), now)
    {
      DropOldProbes(now);
      hide LiveProbes;
    }

    method DropOldProbes(now: nat)
      modifies `probes
      ensures probes == LiveProbes(old(probes), now)
    {
      var i := 0;
      while i < |probes|
        invariant i <= |probes|
        invariant probes[..i] + LiveProbes(probes[i..], now) == LiveProbes(old(probes), now)
        decreases |probes| - i
      {
        var rest := probes[i..];
        if probes[i].registered + PROBE_TTL <= now {
          probes := probes[..i] + probes[i + 1..];
          assert probes[i..] == rest[1..];
        } else {
          i := i + 1;
          assert probes[..i] == probes[..i - 1] + [rest[0]] && probes[i..] == rest[1..];
        }
      }
      assert probes[i..] == [] && probes[..i] == probes;
    }

    method ProbeHeldFor(from: Endpoint) returns (held: bool)
      ensures held <==> HasProbeTo(probes, from)
    {
      for i := 0 to |probes|
        invariant forall k | 0 <= k < i :: probes[k].to != from
      {
        if probes[i].to == from {
          return true;
        }
      }
      return false;
    }

    method StartProbe(from: Endpoint, now: nat)
      modifies `probes, `draws, `budget, `budgetAt, `nextSeq, `out
      ensures View() == StartPathProbe(c, old(View()), from, now)
    {
      hide ExpireProbes, Register, HasProbeTo;
      ExpireOldProbes(now);
      var held := ProbeHeldFor(from);
      if held || |probes| >= MAX_PROBE_PATHS {
        return;
      }
      var nonce := c.draw(draws);
      draws := draws + 1;
      if nonce.None? {
        return;
      }
      RegisterProbe(from, nonce.value, now);
    }

    method RegisterProbe(from: Endpoint, nonce: Nonce, now: nat)
      modifies `probes, `budget, `budgetAt, `nextSeq, `out
      ensures View() == Register(c, old(View()), from, nonce, now)
    {
      hide SpendFor, SendPacket;
      var may := Spend(from, now);
      if !may {
        return;
      }
      probes := probes + [Probe(from, nonce, now, false)];
      var _ := Send(Hello(nonce, c.localVip), from, now);
    }

    method ExpireOldPings(now: nat)
      modifies `pings
      ensures View() == old(View()).(pings := LivePings(old(pings), now))
    {
      var todo := pings.Keys;
      while todo != {}
        invariant todo <= pings.Keys
        invariant pings == map id | id in old(pings) && (id in todo || old(pings)[id] + PENDING_PING_TTL > now) :: old(pings)[id]
        decreases |todo|
      {
        var id :| id in todo;
        todo := todo - {id};
        if pings[id] + PENDING_PING_TTL <= now {
          pings := pings - {id};
        }
      }
    }

    method NewPing(now: nat) returns (id: nat)
      modifies `nextPing, `pings
      ensures id == old(View()).nextPing && View() == old(View()).(nextPing := id + 1, pings := old(View()).pings[id := now])
    {
      id := TakePingId();
      pings := pings[id := now];
    }

    method TakePingId() returns (id: nat)
      modifies `nextPing
      ensures id == old(View()).nextPing && View() == old(View()).(nextPing := id + 1)
    {
      id := nextPing;
      nextPing := nextPing + 1;
    }

    method SendAPing(now: nat)
      modifies `pingDue, `pings, `nextPing, `nextSeq, `out
      ensures View() == SendPing(c, old(View()), now)
    {
      hide SendToPeer, LivePings;
      ArmPing(now);
      ExpireOldPings(now);
      if |pings| >= MAX_PENDING_PINGS {
        return;
      }
      var id := NewPing(now);
      SendToThePeer(Ping(id), now);
    }

    method SendAKeepalive(now: nat)
      modifies `keepaliveDue, `nextSeq, `out
      ensures View() == SendKeepalive(c, old(View()), now)
    {
      hide SendToPeer;
      SendToThePeer(Keepalive, now);
      keepaliveDue := Some(now + KEEPALIVE_INTERVAL);
    }

    method SendAck(echo: Nonce, to: Endpoint, now: nat)
      modifies `sentAck, `budget, `budgetAt, `nextSeq, `out
      ensures View() == SendHelloAck(c, old(View()), echo, to, now)
    {
      hide SpendFor, SendPacket;
      var may := Spend(to, now);
      if !may {
        return;
      }
      var ok := Send(HelloAck(echo, c.localVip), to, now);
      if ok {
        sentAck := true;
      }
    }

    // ---------------------------------------------------------------- state changes

    method StopAllTimers()
      modifies `helloDue, `punchDue, `keepaliveDue, `pingDue, `idleDue
      ensures View() == StopTimers(old(View()))
    {
      hide View;
      StopPunchTimers();
      StopConnectedTimers();
    }

    method StopPunchTimers()
      modifies `helloDue, `punchDue
      ensures View() == old(View()).(helloDue := None, punchDue := None)
    {
      hide View;
      DisarmHello();
      DisarmPunch();
    }

    method StopConnectedTimers()
      modifies `keepaliveDue, `pingDue, `idleDue
      ensures View() == old(View()).(keepaliveDue := None, pingDue := None, idleDue := None)
    {
      hide View;
      DisarmKeepalive();
      DisarmPing();
      DisarmIdle();
    }

    method DisarmHello()
      modifies `helloDue
      ensures View() == old(View()).(helloDue := None)
    {
      helloDue := None;
    }

    method DisarmPunch()
      modifies `punchDue
      ensures View() == old(View()).(punchDue := None)
    {
      punchDue := None;
    }

    method DisarmKeepalive()
      modifies `keepaliveDue
      ensures View() == old(View()).(keepaliveDue := None)
    {
      keepaliveDue := None;
    }

    method DisarmPing()
      modifies `pingDue
      ensures View() == old(View()).(pingDue := None)
    {
      pingDue := None;
    }

    method DisarmIdle()
      modifies `idleDue
      ensures View() == old(View()).(idleDue := None)
    {
      idleDue := None;
    }

    method ArmPing(now: nat)
      modifies `pingDue
      ensures View() == old(View()).(pingDue := Some(now + PING_INTERVAL))
    {
      pingDue := Some(now + PING_INTERVAL);
    }

    method StartLossPeriod()
      modifies `lossBaseline, `lossAccepted
      ensures View() == old(View()).(lossBaseline := Some(old(View()).window.position), lossAccepted := 0)
    {
      lossBaseline := Some(window.position);
      ForgetAccepted();
    }

    method ForgetAccepted()
      modifies `lossAccepted
      ensures View() == old(View()).(lossAccepted := 0)
    {
      lossAccepted := 0;
    }

    method BecomeConnected(now: nat)
      modifies `helloDue, `punchDue, `lossBaseline, `lossAccepted, `idleDue, `pingDue, `keepaliveDue, `nextSeq, `out
      ensures View() == EnterConnected(c, old(View()), now)
    {
      hide SendKeepalive, View;
      StopPunchTimers();
      StartLossPeriod();
      RefreshIdle(now);
      ArmPing(now);
      SendAKeepalive(now);
    }

    method SettleFrom(before: Phase, now: nat)
      modifies this
      ensures View() == Settle(c, old(View()), before, now)
    {
      hide EnterConnected, PhaseOf;
      var after := Phase();
      if after == before {
        return;
      }
      if after == Connected {
        BecomeConnected(now);
      }
      NoteChange(before, after);
    }

    method NoteChange(before: Phase, after: Phase)
      modifies `notes
      ensures View() == old(View()).(notes := old(View()).notes + [Note(before, after)])
    {
      notes := notes + [Note(before, after)];
    }

    method BecomeTerminal(phase: Phase, now: nat)
      modifies this
      ensures View() == EnterTerminal(old(View()), phase, now)
    {
      hide PhaseOf, View;
      var before := Phase();
      StopAllTimers();
      ForgetProbes();
      MarkTerminal(phase, now);
      NoteChange(before, phase);
    }

    method ForgetProbes()
      modifies `probes
      ensures View() == old(View()).(probes := [])
    {
      probes := [];
    }

    method MarkTerminal(phase: Phase, now: nat)
      modifies `terminal, `terminalSince
      ensures View() == old(View()).(terminal := Some(phase), terminalSince := Some(now))
    {
      terminal := Some(phase);
      SetTerminalSince(now);
    }

    method SetTerminalSince(now: nat)
      modifies `terminalSince
      ensures View() == old(View()).(terminalSince := Some(now))
    {
      terminalSince := Some(now);
    }

    method FailWith(code: Failure, now: nat)
      modifies this
      ensures View() == Fail(c, old(View()), code, now)
    {
      hide EnterTerminal, SendPacket;
      StopAllTimers();
      if endpoint.Some? {
        var _ := Send(Close(3), endpoint.value, now);
      }
      failure := Some(code);
      BecomeTerminal(Failed, now);
    }

    method CountRenegotiation(now: nat)
      modifies `renegotiations, `lastRenegotiation
      ensures View() == old(View()).(renegotiations := old(View()).renegotiations + 1, lastRenegotiation := Some(now))
    {
      renegotiations := renegotiations + 1;
      SetLastRenegotiation(now);
    }

    method SetLastRenegotiation(now: nat)
      modifies `lastRenegotiation
      ensures View() == old(View()).(lastRenegotiation := Some(now))
    {
      lastRenegotiation := Some(now);
    }

    method RetirePinned(now: nat)
      requires pinned.Some?
      modifies `retires
      ensures old(View()).pinned.Some?
      ensures View() == old(View()).(retires := old(View()).retires + [Retire(old(View()).pinned.value, now)])
    {
      retires := retires + [Retire(pinned.value, now)];
    }

    method ForgetAcks()
      modifies `gotAck, `sentAck
      ensures View() == old(View()).(gotAck := false, sentAck := false)
    {
      gotAck := false;
      ForgetSentAck();
    }

    method ForgetSentAck()
      modifies `sentAck
      ensures View() == old(View()).(sentAck := false)
    {
      sentAck := false;
    }

    method CloseLossPeriod()
      modifies `lossTotals, `lossBaseline, `lossAccepted
      ensures View() == old(View()).(lossTotals := LossOf(old(View())), lossBaseline := None,
                                     lossAccepted := if old(View()).lossBaseline.Some? then 0 else old(View()).lossAccepted)
    {
      if lossBaseline.Some? {
        lossTotals := Loss(lossTotals.expected + (window.position - lossBaseline.value), lossTotals.accepted + lossAccepted);
        lossBaseline := None;
        lossAccepted := 0;
      }
    }

    method ResetForEpoch(epoch: U32, now: nat)
      requires pinned.Some?
      modifies this, window
      ensures View() == Reset(old(View()), epoch, now)
    {
      hide View, LossOf;
      CountRenegotiation(now);
      RetirePinned(now);
      ForgetAcks();
      SameLoss(old(View()), View());
      CloseLossPeriod();
      ForgetEpoch(epoch);
    }

    method ForgetEpoch(epoch: U32)
      modifies `pings, `pinned, window
      ensures View() == old(View()).(window := R.Fresh(), pings := map[], pinned := Some(epoch))
    {
      window.Reset();
      pings := map[];
      pinned := Some(epoch);
    }

    method RestartPunching(now: nat)
      modifies `helloDue, `punchDue, `nextSeq, `out
      ensures View() == RestartPunch(c, old(View()), now)
    {
      hide HelloRound;
      if punchStarted {
        ArmPunch(now);
        SendHelloRound(now);
        ArmHello(now);
      }
    }

    method ArmPunch(now: nat)
      modifies `punchDue
      ensures View() == old(View()).(punchDue := Some(now + PUNCH_DEADLINE))
    {
      punchDue := Some(now + PUNCH_DEADLINE);
    }

    method ArmHello(now: nat)
      modifies `helloDue
      ensures View() == old(View()).(helloDue := Some(now + HELLO_RETRANSMIT))
    {
      helloDue := Some(now + HELLO_RETRANSMIT);
    }

    method RenegotiateTo(epoch: U32, nonce: Nonce, from: Endpoint, now: nat)
      requires pinned.Some?
      modifies this, window
      ensures View() == Renegotiate(c, old(View()), epoch, nonce, from, now)
    {
      hide HelloRound, SendHelloAck, Reset, RestartPunch, Settle, PhaseOf, View;
      var before := Phase();
      ResetForEpoch(epoch, now);
      SendAck(nonce, from, now);
      StopConnectedTimers();
      RestartPunching(now);
      SettleFrom(before, now);
    }

    // ---------------------------------------------------------------- the owner's calls

    method BeginPunch()
      modifies `punchStarted
      ensures View() == old(View()).(punchStarted := true)
    {
      punchStarted := true;
    }

    method StartPunching(now: nat) returns (started: bool)
      modifies this
      ensures (View(), started) == StartPunch(c, old(View()), now)
    {
      hide HelloRound;
      var phase := Phase();
      if phase.Terminal() || punchStarted {
        return false;
      }
      BeginPunch();
      if phase == Connected {
        return false;
      }
      SendHelloRound(now);
      ArmHello(now);
      ArmPunch(now);
      return true;
    }

    method PollAt(now: nat)
      modifies this
      ensures View() == Poll(c, old(View()), now)
    {
      hide ExpireProbes, Fail, PollPeriodic;
      var phase := Phase();
      if phase.Terminal() {
        return;
      }
      ExpireOldProbes(now);
      if punchDue.Some? && punchDue.value <= now {
        FailWith(if gotAck || sentAck then PeerHandshakeFailed else HolePunchTimeout, now);
        return;
      }
      if idleDue.Some? && idleDue.value <= now {
        FailWith(TunnelDropped, now);
        return;
      }
      RunPeriodic(now);
    }

    method RunPeriodic(now: nat)
      modifies `helloDue, `keepaliveDue, `pingDue, `pings, `nextPing, `nextSeq, `out
      ensures View() == PollPeriodic(c, old(View()), now)
    {
      hide HelloRound, SendKeepalive, SendPing;
      if helloDue.Some? && helloDue.value <= now {
        SendHelloRound(now);
        ArmHello(now);
      }
      if keepaliveDue.Some? && keepaliveDue.value <= now {
        SendAKeepalive(now);
      }
      if pingDue.Some? && pingDue.value <= now {
        SendAPing(now);
      }
    }

    method CloseSession(now: nat)
      modifies this
      ensures View() == CloseByUser(c, old(View()), now)
    {
      hide EnterTerminal, SendPacket;
      var phase := Phase();
      if phase.Terminal() {
        return;
      }
      if endpoint.Some? {
        var _ := Send(Close(if phase == Connected then 0 else 1), endpoint.value, now);
      }
      BecomeTerminal(Closed, now);
    }

    // ---------------------------------------------------------------- receiving

    method Gatekeep(p: RxPacket, now: nat) returns (gate: Gate)
      modifies this, window
      ensures (View(), gate) == EpochGate(c, old(View()), p, now)
      ensures gate.Go? && gate.probe.Some? ==> gate.probe.value < |probes|
    {
      hide Renegotiate, ExpireProbes;
      match p.body {
        case Hello(nonce, vip) =>
          if vip != c.peerVip {
            return Stop(DropVipMismatch);
          }
          if pinned.Some? && p.epoch != pinned.value {
            if lastRenegotiation.Some? && now < lastRenegotiation.value + MIN_RENEG_INTERVAL {
              return Stop(DropRenegRate);
            }
            if renegotiations >= MAX_RENEGOTIATIONS {
              return Stop(DropRenegLimit);
            }
            RenegotiateTo(p.epoch, nonce, p.from, now);
            return Go(true, None);
          }
          return Go(false, None);
        case HelloAck(nonce, vip) =>
          if vip != c.peerVip {
            return Stop(DropVipMismatch);
          }
          ExpireOldProbes(now);
          var probe := None;
          var i := 0;
          while i < |probes| && probe.None?
            invariant i <= |probes|
            invariant if probe.None? then FindProbe(probes, nonce, p.from, i) == FindProbe(probes, nonce, p.from, 0)
                      else probe == FindProbe(probes, nonce, p.from, 0)
          {
            if probes[i].nonce == nonce && probes[i].to == p.from {
              probe := Some(i);
            }
            i := i + 1;
          }
          if probe.Some? {
            if pinned.None? || p.epoch != pinned.value {
              return Stop(DropStaleEpoch);
            }
          } else {
            if nonce != c.attemptNonce {
              return Stop(DropBadNonce);
            }
            if pinned.Some? && p.epoch != pinned.value {
              return Stop(DropStaleEpoch);
            }
          }
          return Go(false, probe);
        case _ =>
          if pinned.None? {
            return Stop(DropNoEpoch);
          }
          if p.epoch != pinned.value {
            return Stop(DropStaleEpoch);
          }
          return Go(false, None);
      }
    }

    method CheckType(body: Body, now: nat) returns (bad: Option<Drop>)
      modifies `pings
      ensures (View(), bad) == TypeCheck(c, old(View()), body, now)
    {
      hide I.InnerVerdict, P.DecodeRoster, LivePings;
      match body {
        case Data(inner) =>
          var phase := Phase();
          if phase != Connected {
            return Some(DropDataEarly);
          }
          var e := I.CheckInner(inner, c.peerVip, c.localVip);
          return if e == I.InnerOk then None else Some(DropInner(e));
        case Pong(id) =>
          ExpireOldPings(now);
          return if id in pings then None else Some(DropUnmatchedPong);
        case Close(reason) => return if reason > 3 then Some(DropBadReason) else None;
        case Roster(payload) =>
          var r := P.Decode(payload, P.RosterContext(c.peerIsHost, lastGeneration));
          return if r.RosterOk? then None else Some(DropRoster(r.error));
        case _ => return None;
      }
    }

    method Pin(epoch: U32)
      modifies `pinned
      ensures View() == if old(View()).pinned.None? then old(View()).(pinned := Some(epoch)) else old(View())
    {
      if pinned.None? {
        pinned := Some(epoch);
      }
    }

    method MarkAnswered(i: nat)
      requires i < |probes|
      modifies `probes
      ensures i < |old(View()).probes|
      ensures View() == old(View()).(probes := old(View()).probes[i := old(View()).probes[i].(answered := true)])
    {
      probes := probes[i := probes[i].(answered := true)];
    }

    method Learn(from: Endpoint)
      modifies `endpoint
      ensures View() == old(View()).(endpoint := Some(from))
    {
      endpoint := Some(from);
    }

    method RefreshIdle(now: nat)
      modifies `idleDue
      ensures View() == old(View()).(idleDue := Some(now + IDLE_TIMEOUT))
    {
      idleDue := Some(now + IDLE_TIMEOUT);
    }

    method LearnFrom(p: RxPacket, probe: Option<nat>, advanced: bool, now: nat) returns (search: bool)
      requires probe.Some? ==> probe.value < |probes|
      modifies `pinned, `probes, `endpoint, `idleDue
      ensures View() == Admit(c, old(View()), p, probe, advanced, now)
      ensures search <==> probe.None? && advanced && !IsVerified(c, old(View()), p.from)
    {
      var before := Phase();
      hide PhaseOf, IsVerified, View;
      Pin(p.epoch);
      assert IsVerified(c, View(), p.from) == IsVerified(c, old(View()), p.from) by {
        SameVerified(c, old(View()), View(), p.from);
      }
      if probe.Some? {
        LearnProbed(probe.value, p.from, advanced);
        search := false;
      } else {
        search := LearnVerified(p.from, advanced);
      }
      if before == Connected {
        RefreshIdle(now);
      }
    }

    method LearnProbed(i: nat, from: Endpoint, advanced: bool)
      requires i < |probes|
      modifies `probes, `endpoint
      ensures i < |old(View()).probes|
      ensures View() == old(View()).(probes := old(View()).probes[i := old(View()).probes[i].(answered := true)],
                                     endpoint := if advanced then Some(from) else old(View()).endpoint)
    {
      hide View;
      MarkAnswered(i);
      if advanced {
        Learn(from);
      }
    }

    method LearnVerified(from: Endpoint, advanced: bool) returns (search: bool)
      modifies `endpoint
      ensures View() == if advanced && IsVerified(c, old(View()), from) then old(View()).(endpoint := Some(from)) else old(View())
      ensures search <==> advanced && !IsVerified(c, old(View()), from)
    {
      hide IsVerified;
      if !advanced {
        return false;
      }
      var verified := IsVerifiedAddress(from);
      if verified {
        Learn(from);
      }
      return !verified;
    }

    method AnswerPing(to: Endpoint, id: nat, now: nat)
      modifies `budget, `budgetAt, `nextSeq, `out
      ensures var (s1, may) := SpendFor(c, old(View()), to, now);
              View() == if may then SendPacket(c, s1, Pong(id), to, now).0 else s1
    {
      hide SpendFor, SendPacket;
      var may := Spend(to, now);
      if may {
        var _ := Send(Pong(id), to, now);
      }
    }

    method TakeAck()
      modifies `gotAck
      ensures View() == old(View()).(gotAck := true)
    {
      gotAck := true;
    }

    method ForgetPing(id: nat)
      modifies `pings
      ensures View() == old(View()).(pings := old(View()).pings - {id})
    {
      pings := pings - {id};
    }

    method Deliver(inner: seq<Byte>)
      modifies `inbox
      ensures View() == old(View()).(inbox := if c.hasSink then old(View()).inbox + [inner] else old(View()).inbox)
    {
      if c.hasSink {
        inbox := inbox + [inner];
      }
    }

    method TakeRoster(payload: seq<Byte>)
      modifies `lastGeneration
      ensures var r := P.DecodeRoster(payload, RosterContextOf(c, old(View())));
              View() == if r.RosterOk? then old(View()).(lastGeneration := Some(r.roster.generation)) else old(View())
    {
      var r := P.Decode(payload, P.RosterContext(c.peerIsHost, lastGeneration));
      if r.RosterOk? && lastGeneration != Some(r.roster.generation) {
        lastGeneration := Some(r.roster.generation);
      }
    }

    method Perform(p: RxPacket, probe: Option<nat>, before: Phase, now: nat)
      requires !p.body.Close?
      modifies `gotAck, `sentAck, `budget, `budgetAt, `nextSeq, `out, `pings, `lastGeneration, `inbox
      ensures View() == Act(c, old(View()), p, probe, before, now)
    {
      hide SendHelloAck, SpendFor, SendPacket, P.DecodeRoster, View;
      match p.body {
        case Hello(nonce, _) => SendAck(nonce, p.from, now);
        case HelloAck(_, _) =>
          if probe.None? && before != Connected {
            TakeAck();
          }
        case Ping(id) =>
          AnswerPing(p.from, id, now);
        case Pong(id) =>
          ForgetPing(id);
        case Roster(payload) =>
          TakeRoster(payload);
        case Data(inner) =>
          Deliver(inner);
        case _ =>
      }
    }

    method NotePeerClose(reason: Byte)
      modifies `peerClose
      ensures View() == old(View()).(peerClose := Some(reason))
    {
      peerClose := Some(reason);
    }

    method TakeEffect(p: RxPacket, probe: Option<nat>, advanced: bool, now: nat) returns (drop: Option<Drop>)
      requires (probe.Some? ==> probe.value < |probes|)
      modifies this
      ensures (View(), drop) == Effects(c, old(View()), p, probe, advanced, now)
    {
      hide Admit, Act, StartPathProbe, Settle, IsVerified, PhaseOf, EnterTerminal, View;
      var before := Phase();
      var search := LearnFrom(p, probe, advanced, now);
      if p.body.Close? {
        NotePeerClose(p.body.reason);
        BecomeTerminal(Closed, now);
        return None;
      }
      Perform(p, probe, before, now);
      if search {
        StartProbe(p.from, now);
      }
      SettleFrom(before, now);
      return if p.body.Data? && !c.hasSink then Some(DropNoSink) else None;
    }

    method ReceivePacket(p: RxPacket, now: nat) returns (drop: Option<Drop>)
      modifies this, window
      ensures (View(), drop) == Receive(c, old(View()), p, now)
    {
      hide EpochGate, AfterGate;
      var phase := Phase();
      if phase.Terminal() {
        return Some(DropTerminalState);
      }
      var gate := Gatekeep(p, now);
      if gate.Stop? {
        return Some(gate.drop);
      }
      drop := HandleAccepted(p, gate.renegotiated, gate.probe, now);
    }

    method HandleAccepted(p: RxPacket, renegotiated: bool, probe: Option<nat>, now: nat) returns (drop: Option<Drop>)
      requires (probe.Some? ==> probe.value < |probes|)
      modifies this, window
      ensures (View(), drop) == AfterGate(c, old(View()), p, renegotiated, probe, now)
    {
      hide R.Check, TypeCheck, IsVerified, StartPathProbe, Effects;
      var decision := window.AcceptNumber(p.number);
      if decision.verdict.Duplicate? {
        return Some(DropDuplicate);
      }
      if decision.verdict.TooOld? {
        return Some(DropTooOld);
      }
      if lossBaseline.Some? && decision.pktPos > lossBaseline.value {
        lossAccepted := lossAccepted + 1;
      }
      assert View() == CountAccepted(old(View()), p.number);
      drop := CheckType(p.body, now);
      if drop.Some? {
        return;
      }
      if renegotiated {
        var verified := IsVerifiedAddress(p.from);
        if !verified {
          StartProbe(p.from, now);
        }
        return None;
      }
      drop := TakeEffect(p, probe, decision.Advanced(), now);
    }
  }

  lemma SameLoss(s: State, t: State)
    requires s.lossBaseline == t.lossBaseline && s.window == t.window && s.lossTotals == t.lossTotals && s.lossAccepted == t.lossAccepted
    ensures LossOf(s) == LossOf(t)
  {
  }

  lemma SameVerified(c: Config, s: State, t: State, e: Endpoint)
    requires s.endpoint == t.endpoint
    ensures IsVerified(c, s, e) == IsVerified(c, t, e)
  {
  }

  // ---------------------------------------------------------------- the earliest of several

  function EarliestOf(ds: seq<Option<nat>>): Option<nat> {
    if ds == [] then None else Earlier(EarliestOf(ds[..|ds| - 1]), ds[|ds| - 1])
  }

  lemma EarliestOfFive(a: Option<nat>, b: Option<nat>, d: Option<nat>, e: Option<nat>, f: Option<nat>)
    ensures EarliestOf([a, b, d, e, f]) == Earlier(a, Earlier(b, Earlier(d, Earlier(e, f))))
  {
    assert [a, b, d, e, f][..4] == [a, b, d, e];
    assert EarliestOf([a, b, d, e, f]) == Earlier(EarliestOf([a, b, d, e]), f);
    assert EarliestOf([a, b, d, e]) == Earlier(EarliestOf([a, b, d]), e) by {
      assert [a, b, d, e][..3] == [a, b, d];
    }
    assert EarliestOf([a, b, d]) == Earlier(EarliestOf([a, b]), d) by {
      assert [a, b, d][..2] == [a, b];
    }
    assert EarliestOf([a, b]) == Earlier(EarliestOf([a]), b) by {
      assert [a, b][..1] == [a];
    }
    assert EarliestOf([a]) == a by {
      assert [a][..0] == [];
    }
  }
}
