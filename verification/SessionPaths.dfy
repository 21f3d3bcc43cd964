/**
 Where a session sends and whom it believes: the rate limit on unverified destinations over
 every interval of a run, the table of path probes, and the provenance of the peer endpoint.
 */
module SessionPaths {
  import opened Wrappers
  import opened SessionSpec
  import R = Replay

  // ---------------------------------------------------------------- lazy refill

  // Clamping the elapsed time first gives the ideal bucket: the level grows by the refill
  // rate and stops at capacity.
  lemma RefillIsIdeal(budget: Tokens, budgetAt: nat, now: nat)
    requires budgetAt <= now
    ensures Refilled(budget, budgetAt, now) == Min(TOKEN_CAPACITY, budget + TOKEN_REFILL * (now - budgetAt))
  {
  }

  // Refilling in two goes is refilling once.
  lemma RefillComposes(budget: Tokens, t0: nat, t1: nat, t2: nat)
    requires t0 <= t1 <= t2
    ensures Refilled(Refilled(budget, t0, t1), t1, t2) == Refilled(budget, t0, t2)
  {
    RefillIsIdeal(budget, t0, t1);
    RefillIsIdeal(Refilled(budget, t0, t1), t1, t2);
    RefillIsIdeal(budget, t0, t2);
  }

  // ---------------------------------------------------------------- rate limit

  // Sent to an address that was neither a candidate nor the peer endpoint of that moment.
  predicate Unverified(c: Config, d: Datagram) {
    d.to !in c.candidates && d.learned != Some(d.to)
  }

  function CountUnverified(c: Config, ds: seq<Datagram>): nat {
    if ds == [] then 0
    else CountUnverified(c, ds[..|ds| - 1]) + if Unverified(c, ds[|ds| - 1]) then 1 else 0
  }

  // Tokens spent since any unverified datagram, and tokens left, never exceed capacity plus refill.
  ghost predicate Bucket(c: Config, out: seq<Datagram>, budget: Tokens, at: nat) {
    && (forall i | 0 <= i < |out| && Unverified(c, out[i]) ::
          && out[i].at <= at
          && TOKEN_COST * CountUnverified(c, out[i..]) + budget <= TOKEN_CAPACITY + TOKEN_REFILL * (at - out[i].at))
    && RateLimited(c, out)
  }

  // Between any two unverified datagrams, both included: at most 10 plus 5 per second.
  ghost predicate RateLimited(c: Config, out: seq<Datagram>) {
    forall i, j | 0 <= i <= j < |out| && Unverified(c, out[i]) && Unverified(c, out[j]) ::
      TOKEN_COST * CountUnverified(c, out[i..j + 1]) <= TOKEN_CAPACITY + TOKEN_REFILL * (out[j].at - out[i].at)
  }

  lemma CountNone(c: Config)
    ensures CountUnverified(c, []) == 0
  {
  }

  lemma CountAppend(c: Config, ds: seq<Datagram>, d: Datagram)
    ensures CountUnverified(c, ds + [d]) == CountUnverified(c, ds) + if Unverified(c, d) then 1 else 0
  {
    assert (ds + [d])[..|ds|] == ds;
  }

  lemma BucketWaits(c: Config, out: seq<Datagram>, budget: Tokens, at: nat, now: nat)
    requires Bucket(c, out, budget, at)
    ensures Bucket(c, out, Refilled(budget, at, now), if now > at then now else at)
  {
  }

  lemma BucketVerified(c: Config, out: seq<Datagram>, d: Datagram, budget: Tokens, at: nat)
    requires Bucket(c, out, budget, at) && !Unverified(c, d)
    ensures Bucket(c, out + [d], budget, at)
  {
    hide CountUnverified;
    var longer := out + [d];
    forall i | 0 <= i < |longer| && Unverified(c, longer[i])
      ensures longer[i].at <= at
      ensures TOKEN_COST * CountUnverified(c, longer[i..]) + budget <= TOKEN_CAPACITY + TOKEN_REFILL * (at - longer[i].at)
    {
      assert longer[i..] == out[i..] + [d];
      CountAppend(c, out[i..], d);
    }
    forall i, j | 0 <= i <= j < |longer| && Unverified(c, longer[i]) && Unverified(c, longer[j])
      ensures TOKEN_COST * CountUnverified(c, longer[i..j + 1]) <= TOKEN_CAPACITY + TOKEN_REFILL * (longer[j].at - longer[i].at)
    {
      assert longer[i..j + 1] == out[i..j + 1];
    }
  }

  lemma SpentLeft(c: Config, out: seq<Datagram>, d: Datagram, budget: Tokens, at: nat, i: nat)
    requires Bucket(c, out, budget, at) && budget >= TOKEN_COST && d.at == at
    requires i <= |out| && Unverified(c, (out + [d])[i])
    ensures var longer := out + [d];
            && longer[i].at <= at
            && TOKEN_COST * CountUnverified(c, longer[i..]) + (budget - TOKEN_COST)
               <= TOKEN_CAPACITY + TOKEN_REFILL * (at - longer[i].at)
  {
    hide RateLimited, CountUnverified;
    var longer := out + [d];
    assert longer[i..] == out[i..] + [d];
    CountAppend(c, out[i..], d);
    if i == |out| {
      assert out[i..] == [];
      CountNone(c);
    } else {
      assert Unverified(c, out[i]);
    }
  }

  lemma SpentBetween(c: Config, out: seq<Datagram>, d: Datagram, budget: Tokens, at: nat, i: nat, j: nat)
    requires Bucket(c, out, budget, at) && budget >= TOKEN_COST && d.at == at
    requires i <= j <= |out| && Unverified(c, (out + [d])[i]) && Unverified(c, (out + [d])[j])
    ensures var longer := out + [d];
            TOKEN_COST * CountUnverified(c, longer[i..j + 1]) <= TOKEN_CAPACITY + TOKEN_REFILL * (longer[j].at - longer[i].at)
  {
    hide CountUnverified;
    var longer := out + [d];
    if j < |out| {
      assert longer[i..j + 1] == out[i..j + 1];
    } else {
      assert longer[i..j + 1] == longer[i..];
      SpentLeft(c, out, d, budget, at, i);
    }
  }

  lemma BucketSpent(c: Config, out: seq<Datagram>, d: Datagram, budget: Tokens, at: nat)
    requires Bucket(c, out, budget, at) && budget >= TOKEN_COST && d.at == at
    ensures Bucket(c, out + [d], budget - TOKEN_COST, at)
  {
    hide CountUnverified;
    var longer := out + [d];
    forall i | 0 <= i < |longer| && Unverified(c, longer[i])
      ensures longer[i].at <= at
      ensures TOKEN_COST * CountUnverified(c, longer[i..]) + (budget - TOKEN_COST)
              <= TOKEN_CAPACITY + TOKEN_REFILL * (at - longer[i].at)
    {
      SpentLeft(c, out, d, budget, at, i);
    }
    forall i, j | 0 <= i <= j < |longer| && Unverified(c, longer[i]) && Unverified(c, longer[j])
      ensures TOKEN_COST * CountUnverified(c, longer[i..j + 1]) <= TOKEN_CAPACITY + TOKEN_REFILL * (longer[j].at - longer[i].at)
    {
      SpentBetween(c, out, d, budget, at, i, j);
    }
  }

  // ---------------------------------------------------------------- probes

  // The datagram that carried this probe's nonce to its address when it was registered.
  predicate SentProbe(c: Config, out: seq<Datagram>, q: Probe, k: nat) {
    k < |out| && out[k].to == q.to && out[k].at == q.registered && out[k].body == Hello(q.nonce, c.localVip)
  }

  ghost predicate ReallySent(c: Config, out: seq<Datagram>, q: Probe) {
    exists k :: SentProbe(c, out, q, k)
  }

  // At most four, distinct addresses, in order of registration, each one really probed.
  ghost predicate ProbeTable(c: Config, out: seq<Datagram>, probes: seq<Probe>, t: nat) {
    && |probes| <= MAX_PROBE_PATHS
    && (forall i, j | 0 <= i < j < |probes| :: probes[i].to != probes[j].to && probes[i].registered <= probes[j].registered)
    && (forall q | q in probes :: q.registered <= t && ReallySent(c, out, q))
  }

  lemma SentStays(c: Config, out: seq<Datagram>, more: seq<Datagram>, q: Probe, r: Probe)
    requires ReallySent(c, out, q) && out <= more && r == q.(answered := r.answered)
    ensures ReallySent(c, more, r)
  {
    var k :| SentProbe(c, out, q, k);
    assert SentProbe(c, more, r, k);
  }

  lemma ProbeTableFrame(c: Config, out: seq<Datagram>, more: seq<Datagram>, probes: seq<Probe>, t: nat, later: nat)
    requires ProbeTable(c, out, probes, t) && out <= more && t <= later
    ensures ProbeTable(c, more, probes, later)
  {
    forall q | q in probes
      ensures ReallySent(c, more, q)
    {
      SentStays(c, out, more, q, q);
    }
  }

  lemma {:induction false} LiveProbesAre(probes: seq<Probe>, now: nat)
    ensures |LiveProbes(probes, now)| <= |probes|
    ensures forall q | q in LiveProbes(probes, now) :: q in probes && now < q.registered + PROBE_TTL
  {
    if probes != [] {
      LiveProbesAre(probes[1..], now);
    }
  }

  lemma {:induction false} LiveProbesKeepTable(c: Config, out: seq<Datagram>, probes: seq<Probe>, t: nat, now: nat)
    requires ProbeTable(c, out, probes, t)
    ensures ProbeTable(c, out, LiveProbes(probes, now), t)
  {
    LiveProbesAre(probes, now);
    if probes != [] {
      LiveProbesKeepTable(c, out, probes[1..], t, now);
      LiveProbesAre(probes[1..], now);
      var rest := LiveProbes(probes[1..], now);
      forall i | 0 <= i < |rest|
        ensures probes[0].to != rest[i].to && probes[0].registered <= rest[i].registered
      {
        assert rest[i] in probes[1..];
      }
    }
  }

  lemma TableAppend(c: Config, out: seq<Datagram>, more: seq<Datagram>, probes: seq<Probe>, q: Probe)
    requires ProbeTable(c, out, probes, q.registered) && out <= more && ReallySent(c, more, q)
    requires |probes| < MAX_PROBE_PATHS && !HasProbeTo(probes, q.to)
    ensures ProbeTable(c, more, probes + [q], q.registered)
  {
    ProbeTableFrame(c, out, more, probes, q.registered, q.registered);
  }

  lemma TableAnswered(c: Config, out: seq<Datagram>, probes: seq<Probe>, i: nat, t: nat)
    requires ProbeTable(c, out, probes, t) && i < |probes|
    ensures ProbeTable(c, out, probes[i := probes[i].(answered := true)], t)
  {
    SentStays(c, out, out, probes[i], probes[i].(answered := true));
  }

  // ---------------------------------------------------------------- the joint invariant

  ghost predicate Inv(c: Config, s: State, t: nat) {
    && Bucket(c, s.out, s.budget, s.budgetAt)
    && s.budgetAt <= t
    && ProbeTable(c, s.out, s.probes, t)
  }

  lemma InvLater(c: Config, s: State, t: nat, later: nat)
    requires Inv(c, s, t) && t <= later
    ensures Inv(c, s, later)
  {
    ProbeTableFrame(c, s.out, s.out, s.probes, t, later);
  }

  // Fields the invariant does not read may change.
  predicate SameBooks(s: State, t: State) {
    s.out == t.out && s.budget == t.budget && s.budgetAt == t.budgetAt && s.probes == t.probes
  }

  lemma SameBooksKeep(c: Config, s: State, t: State, now: nat)
    requires Inv(c, s, now) && SameBooks(s, t)
    ensures Inv(c, t, now)
  {
  }

  lemma SendVerified(c: Config, s: State, body: Body, to: Endpoint, now: nat)
    requires Inv(c, s, now) && IsVerified(c, s, to)
    ensures Inv(c, SendPacket(c, s, body, to, now).0, now)
  {
    var r := SendPacket(c, s, body, to, now).0;
    if LengthOk(body) {
      BucketVerified(c, s.out, r.out[|s.out|], s.budget, s.budgetAt);
    }
    ProbeTableFrame(c, s.out, r.out, s.probes, now, now);
  }

  lemma {:induction false} SendEachVerified(c: Config, s: State, body: Body, to: seq<Endpoint>, now: nat)
    requires Inv(c, s, now) && forall i | 0 <= i < |to| :: to[i] in c.candidates
    ensures Inv(c, SendEach(c, s, body, to, now), now)
    decreases |to|
  {
    hide SendPacket, Inv;
    if to != [] {
      SendVerified(c, s, body, to[0], now);
      SendEachVerified(c, SendPacket(c, s, body, to[0], now).0, body, to[1..], now);
    }
  }

  lemma {:induction false} SendWhileTakenVerified(c: Config, s: State, body: Body, to: seq<Endpoint>, now: nat)
    requires Inv(c, s, now) && forall i | 0 <= i < |to| :: to[i] in c.candidates
    ensures Inv(c, SendWhileTaken(c, s, body, to, now).0, now)
    decreases |to|
  {
    hide SendPacket, Inv;
    if to != [] {
      SendVerified(c, s, body, to[0], now);
      SendWhileTakenVerified(c, SendPacket(c, s, body, to[0], now).0, body, to[1..], now);
    }
  }

  lemma SendToPeerKeeps(c: Config, s: State, body: Body, now: nat)
    requires Inv(c, s, now)
    ensures Inv(c, SendToPeer(c, s, body, now), now)
  {
    hide SendPacket, Inv, SendEach;
    if s.endpoint.Some? {
      SendVerified(c, s, body, s.endpoint.value, now);
    } else {
      SendEachVerified(c, s, body, c.candidates, now);
    }
  }

  lemma HelloRoundKeeps(c: Config, s: State, now: nat)
    requires Inv(c, s, now)
    ensures Inv(c, HelloRound(c, s, now), now)
  {
    hide SendEach, Inv;
    SendEachVerified(c, s, Hello(c.attemptNonce, c.localVip), c.candidates, now);
  }

  lemma ExpireProbesKeeps(c: Config, s: State, now: nat)
    requires Inv(c, s, now)
    ensures Inv(c, ExpireProbes(s, now), now)
  {
    LiveProbesKeepTable(c, s.out, s.probes, now, now);
  }

  // Spending, then sending one datagram of a fixed length at the same moment.
  lemma SpendThenSend(c: Config, s: State, body: Body, to: Endpoint, now: nat)
    requires Inv(c, s, now) && LengthOk(body)
    ensures var (s1, may) := SpendFor(c, s, to, now);
            if may then Inv(c, SendPacket(c, s1, body, to, now).0, now) else Inv(c, s1, now)
  {
    var (s1, may) := SpendFor(c, s, to, now);
    if IsVerified(c, s, to) {
      SendVerified(c, s, body, to, now);
    } else {
      BucketWaits(c, s.out, s.budget, s.budgetAt, now);
      if may {
        var r := SendPacket(c, s1, body, to, now).0;
        BucketSpent(c, s.out, r.out[|s.out|], Refilled(s.budget, s.budgetAt, now), now);
        ProbeTableFrame(c, s.out, r.out, s.probes, now, now);
      }
    }
  }

  lemma SendHelloAckKeeps(c: Config, s: State, echo: Nonce, to: Endpoint, now: nat)
    requires Inv(c, s, now)
    ensures Inv(c, SendHelloAck(c, s, echo, to, now), now)
  {
    hide SpendFor, SendPacket;
    SpendThenSend(c, s, HelloAck(echo, c.localVip), to, now);
  }

  lemma StartPathProbeKeeps(c: Config, s: State, from: Endpoint, now: nat)
    requires Inv(c, s, now)
    ensures Inv(c, StartPathProbe(c, s, from, now), now)
  {
    hide ExpireProbes, DrawThenRegister, Inv;
    ExpireProbesKeeps(c, s, now);
    DrawThenRegisterKeeps(c, ExpireProbes(s, now), from, now);
  }

  lemma DrawThenRegisterKeeps(c: Config, s: State, from: Endpoint, now: nat)
    requires Inv(c, s, now)
    ensures Inv(c, DrawThenRegister(c, s, from, now), now)
  {
    hide Register, Inv, HasProbeTo;
    var s1 := s.(draws := s.draws + 1);
    SameBooksKeep(c, s, s1, now);
    if !HasProbeTo(s.probes, from) && |s.probes| < MAX_PROBE_PATHS && c.draw(s.draws).Some? {
      RegisterKeeps(c, s1, from, c.draw(s.draws).value, now);
    }
  }

  lemma RegisterKeeps(c: Config, s: State, from: Endpoint, nonce: Nonce, now: nat)
    requires Inv(c, s, now) && !HasProbeTo(s.probes, from) && |s.probes| < MAX_PROBE_PATHS
    ensures Inv(c, Register(c, s, from, nonce, now), now)
  {
    var body := Hello(nonce, c.localVip);
    SpendThenSend(c, s, body, from, now);
    var (s1, may) := SpendFor(c, s, from, now);
    if may {
      var r := SendPacket(c, s1, body, from, now).0;
      var q := Probe(from, nonce, now, false);
      assert SentProbe(c, r.out, q, |s1.out|);
      TableAppend(c, s.out, r.out, s.probes, q);
      SameTail(c, r, s.probes + [q], now);
      var s2 := s1.(probes := s1.probes + [q]);
      SameBooksKeep(c, r.(probes := s.probes + [q]), SendPacket(c, s2, body, from, now).0, now);
    }
  }

  lemma SameTail(c: Config, s: State, probes: seq<Probe>, now: nat)
    requires Inv(c, s, now) && ProbeTable(c, s.out, probes, now)
    ensures Inv(c, s.(probes := probes), now)
  {
  }

  lemma SettleKeeps(c: Config, s: State, before: Phase, now: nat)
    requires Inv(c, s, now)
    ensures Inv(c, Settle(c, s, before, now), now)
  {
    hide SendToPeer;
    if PhaseOf(s) != before && PhaseOf(s) == Connected {
      var s1 := s.(helloDue := None, punchDue := None, lossBaseline := Some(s.window.position), lossAccepted := 0,
                   idleDue := Some(now + IDLE_TIMEOUT), pingDue := Some(now + PING_INTERVAL));
      SendToPeerKeeps(c, s1, Keepalive, now);
    }
  }

  lemma EnterTerminalKeeps(c: Config, s: State, phase: Phase, now: nat)
    requires Inv(c, s, now)
    ensures Inv(c, EnterTerminal(s, phase, now), now)
  {
  }

  lemma FailKeeps(c: Config, s: State, failure: Failure, now: nat)
    requires Inv(c, s, now)
    ensures Inv(c, Fail(c, s, failure, now), now)
  {
    var s1 := StopTimers(s);
    if s1.endpoint.Some? {
      SendVerified(c, s1, Close(3), s1.endpoint.value, now);
    }
  }

  lemma RenegotiateKeeps(c: Config, s: State, epoch: U32, nonce: Nonce, from: Endpoint, now: nat)
    requires Inv(c, s, now) && s.pinned.Some?
    ensures Inv(c, Renegotiate(c, s, epoch, nonce, from, now), now)
  {
    hide Inv, SendHelloAck, HelloRound, Settle, RestartPunch;
    var s1 := Reset(s, epoch, now);
    SameBooksKeep(c, s, s1, now);
    SendHelloAckKeeps(c, s1, nonce, from, now);
    var s2 := SendHelloAck(c, s1, nonce, from, now);
    var s3 := s2.(keepaliveDue := None, pingDue := None, idleDue := None);
    SameBooksKeep(c, s2, s3, now);
    RestartPunchKeeps(c, s3, now);
    var s4 := RestartPunch(c, s3, now);
    SettleKeeps(c, s4, PhaseOf(s), now);
  }

  lemma RestartPunchKeeps(c: Config, s: State, now: nat)
    requires Inv(c, s, now)
    ensures Inv(c, RestartPunch(c, s, now), now)
  {
    hide Inv, HelloRound;
    var s1 := s.(punchDue := Some(now + PUNCH_DEADLINE));
    SameBooksKeep(c, s, s1, now);
    HelloRoundKeeps(c, s1, now);
    var s2 := HelloRound(c, s1, now);
    SameBooksKeep(c, s2, s2.(helloDue := Some(now + HELLO_RETRANSMIT)), now);
  }

  lemma GateKeeps(c: Config, s: State, p: RxPacket, now: nat)
    requires Inv(c, s, now)
    ensures Inv(c, EpochGate(c, s, p, now).0, now)
  {
    hide Inv, Renegotiate, ExpireProbes;
    match p.body
    case Hello(nonce, vip) =>
      if vip == c.peerVip && s.pinned.Some? && p.epoch != s.pinned.value {
        RenegotiateKeeps(c, s, p.epoch, nonce, p.from, now);
      }
    case HelloAck(nonce, vip) => ExpireProbesKeeps(c, s, now);
    case _ =>
  }

  lemma AdmitKeeps(c: Config, s: State, p: RxPacket, probe: Option<nat>, advanced: bool, now: nat)
    requires probe.Some? ==> probe.value < |s.probes|
    requires Inv(c, s, now)
    ensures Inv(c, Admit(c, s, p, probe, advanced, now), now)
  {
    var r := Admit(c, s, p, probe, advanced, now);
    if probe.Some? {
      TableAnswered(c, s.out, s.probes, probe.value, now);
      assert r.probes == s.probes[probe.value := s.probes[probe.value].(answered := true)];
      SameTail(c, s, r.probes, now);
      SameBooksKeep(c, s.(probes := r.probes), r, now);
    } else {
      SameBooksKeep(c, s, r, now);
    }
  }

  lemma ActKeeps(c: Config, s: State, p: RxPacket, probe: Option<nat>, before: Phase, now: nat)
    requires !p.body.Close? && Inv(c, s, now)
    ensures Inv(c, Act(c, s, p, probe, before, now), now)
  {
    hide SendHelloAck, SpendFor, SendPacket, Bucket, ProbeTable;
    match p.body
    case Hello(nonce, _) => SendHelloAckKeeps(c, s, nonce, p.from, now);
    case Ping(id) => SpendThenSend(c, s, Pong(id), p.from, now);
    case _ =>
  }

  lemma EffectsKeep(c: Config, s: State, p: RxPacket, probe: Option<nat>, advanced: bool, now: nat)
    requires probe.Some? ==> probe.value < |s.probes|
    requires Inv(c, s, now)
    ensures Inv(c, Effects(c, s, p, probe, advanced, now).0, now)
  {
    hide Bucket, Admit, Act, StartPathProbe, Settle;
    AdmitKeeps(c, s, p, probe, advanced, now);
    var s1 := Admit(c, s, p, probe, advanced, now);
    if !p.body.Close? {
      ActKeeps(c, s1, p, probe, PhaseOf(s), now);
      var s2 := Act(c, s1, p, probe, PhaseOf(s), now);
      StartPathProbeKeeps(c, s2, p.from, now);
      var s3 := if probe.None? && advanced && !IsVerified(c, s, p.from) then StartPathProbe(c, s2, p.from, now) else s2;
      SettleKeeps(c, s3, PhaseOf(s), now);
    }
  }

  lemma AfterGateKeeps(c: Config, s: State, p: RxPacket, renegotiated: bool, probe: Option<nat>, now: nat)
    requires probe.Some? ==> probe.value < |s.probes|
    requires Inv(c, s, now)
    ensures Inv(c, AfterGate(c, s, p, renegotiated, probe, now).0, now)
  {
    hide Bucket, ProbeTable, Effects, StartPathProbe;
    var d := R.Check(s.window, p.number);
    if d.Accepted() {
      var s1 := CountAccepted(s, p.number);
      assert SameBooks(s, s1);
      var (s2, bad) := TypeCheck(c, s1, p.body, now);
      assert Inv(c, s2, now);
      if bad.None? {
        if renegotiated {
          StartPathProbeKeeps(c, s2, p.from, now);
        } else {
          EffectsKeep(c, s2, p, probe, d.Advanced(), now);
        }
      }
    }
  }

  lemma PollKeeps(c: Config, s: State, now: nat)
    requires Inv(c, s, now)
    ensures Inv(c, Poll(c, s, now), now)
  {
    hide Inv, ExpireProbes, Fail, PollPeriodic;
    if Active(s) {
      var s1 := ExpireProbes(s, now);
      ExpireProbesKeeps(c, s, now);
      if Due(s1.punchDue, now) {
        FailKeeps(c, s1, if s1.gotAck || s1.sentAck then PeerHandshakeFailed else HolePunchTimeout, now);
      } else if Due(s1.idleDue, now) {
        FailKeeps(c, s1, TunnelDropped, now);
      } else {
        PollPeriodicKeeps(c, s1, now);
      }
    }
  }

  lemma SendKeepaliveKeeps(c: Config, s: State, now: nat)
    requires Inv(c, s, now)
    ensures Inv(c, SendKeepalive(c, s, now), now)
  {
    hide SendToPeer, Bucket, ProbeTable;
    SendToPeerKeeps(c, s, Keepalive, now);
  }

  lemma SendPingKeeps(c: Config, s: State, now: nat)
    requires Inv(c, s, now)
    ensures Inv(c, SendPing(c, s, now), now)
  {
    hide SendToPeer, Bucket, ProbeTable;
    var s1 := s.(pingDue := Some(now + PING_INTERVAL), pings := LivePings(s.pings, now));
    SameBooksKeep(c, s, s1, now);
    var s2 := s1.(nextPing := s1.nextPing + 1, pings := s1.pings[s1.nextPing := now]);
    SameBooksKeep(c, s1, s2, now);
    SendToPeerKeeps(c, s2, Ping(s1.nextPing), now);
  }

  lemma PollPeriodicKeeps(c: Config, s: State, now: nat)
    requires Inv(c, s, now)
    ensures Inv(c, PollPeriodic(c, s, now), now)
  {
    hide HelloRound, SendKeepalive, SendPing, Bucket, ProbeTable;
    HelloRoundKeeps(c, s, now);
    var s0 := HelloRound(c, s, now);
    SameBooksKeep(c, s0, s0.(helloDue := Some(now + HELLO_RETRANSMIT)), now);
    var s1 := if Due(s.helloDue, now) then s0.(helloDue := Some(now + HELLO_RETRANSMIT)) else s;
    SendKeepaliveKeeps(c, s1, now);
    var s2 := if Due(s1.keepaliveDue, now) then SendKeepalive(c, s1, now) else s1;
    SendPingKeeps(c, s2, now);
  }

  lemma ReceiveKeeps(c: Config, s: State, p: RxPacket, now: nat)
    requires Inv(c, s, now)
    ensures Inv(c, Receive(c, s, p, now).0, now)
  {
    hide Inv, AfterGate, Renegotiate, ExpireProbes;
    if Active(s) {
      GateKeeps(c, s, p, now);
      var (s1, gate) := EpochGate(c, s, p, now);
      if gate.Go? {
        AfterGateKeeps(c, s1, p, gate.renegotiated, gate.probe, now);
      }
    }
  }

  lemma StartPunchKeeps(c: Config, s: State, now: nat)
    requires Inv(c, s, now)
    ensures Inv(c, StartPunch(c, s, now).0, now)
  {
    HelloRoundKeeps(c, s.(punchStarted := true), now);
  }

  lemma CloseKeeps(c: Config, s: State, now: nat)
    requires Inv(c, s, now)
    ensures Inv(c, CloseByUser(c, s, now), now)
  {
    if s.endpoint.Some? {
      SendVerified(c, s, Close(if PhaseOf(s) == Connected then 0 else 1), s.endpoint.value, now);
    }
  }

  lemma SendDataKeeps(c: Config, s: State, inner: seq<Byte>, now: nat)
    requires Inv(c, s, now)
    ensures Inv(c, SendData(c, s, inner, now).0, now)
  {
    if s.endpoint.Some? {
      SendVerified(c, s, Data(inner), s.endpoint.value, now);
    } else {
      SendWhileTakenVerified(c, s, Data(inner), c.candidates, now);
    }
  }

  lemma StepKeeps(c: Config, s: State, e: Event, t: nat)
    requires Inv(c, s, t) && t <= e.now
    ensures Inv(c, Step(c, s, e), e.now)
  {
    hide Receive, Poll, StartPunch, CloseByUser, SendData, SendToPeer, Inv;
    InvLater(c, s, t, e.now);
    match e
    case EvReceive(p, now) => ReceiveKeeps(c, s, p, now);
    case EvPoll(now) => PollKeeps(c, s, now);
    case EvStartPunch(now) => StartPunchKeeps(c, s, now);
    case EvClose(now) => CloseKeeps(c, s, now);
    case EvSendData(inner, now) => SendDataKeeps(c, s, inner, now);
    case EvSendRoster(payload, now) => SendToPeerKeeps(c, s, Roster(payload), now);
  }

  // ---------------------------------------------------------------- every run

  function EndOf(start: nat, events: seq<Event>): nat {
    if events == [] then start else events[|events| - 1].now
  }

  lemma {:induction false} RunKeeps(c: Config, start: nat, events: seq<Event>)
    requires Timed(start, events)
    ensures Inv(c, Run(c, Initial(start), events), EndOf(start, events))
  {
    if events != [] {
      var n := |events| - 1;
      RunKeeps(c, start, events[..n]);
      StepKeeps(c, Run(c, Initial(start), events[..n]), events[n], EndOf(start, events[..n]));
    }
  }

  // Main result: in every interval of every run with a clock that does not go back, datagrams to
  // unverified addresses number at most 10 plus 5 per second; the probe table stays in order.
  lemma EveryRunIsRateLimited(c: Config, start: nat, events: seq<Event>)
    requires Timed(start, events)
    ensures var s := Run(c, Initial(start), events);
            RateLimited(c, s.out) && ProbeTable(c, s.out, s.probes, EndOf(start, events))
  {
    RunKeeps(c, start, events);
  }

  // ---------------------------------------------------------------- provenance of the peer endpoint

  // e is the acknowledgement, from this address, of a probe sent there less than five seconds ago,
  // under the pinned epoch, by a packet newer than all before it.
  predicate ProvesEndpoint(c: Config, s: State, e: Event, endpoint: Endpoint) {
    && e.EvReceive? && e.packet.from == endpoint && e.packet.body.HelloAck?
    && s.pinned == Some(e.packet.epoch)
    && R.Check(s.window, e.packet.number).Advanced()
    && exists k: nat | k < |s.out| ::
         && s.out[k].to == endpoint && s.out[k].body == Hello(e.packet.body.nonce, c.localVip)
         && e.now < s.out[k].at + PROBE_TTL
  }

  lemma StepLearns(c: Config, s: State, e: Event, t: nat)
    requires Inv(c, s, t) && t <= e.now
    ensures Step(c, s, e).endpoint != s.endpoint ==>
              && Step(c, s, e).endpoint.Some?
              && (|| Step(c, s, e).endpoint.value in c.candidates
                  || ProvesEndpoint(c, s, e, Step(c, s, e).endpoint.value))
  {
    hide Receive, Inv;
    match e
    case EvReceive(p, now) => ReceiveLearns(c, s, p, t, now);
    case _ =>
  }

  lemma ReceiveLearns(c: Config, s: State, p: RxPacket, t: nat, now: nat)
    requires Inv(c, s, t) && t <= now
    ensures var r := Receive(c, s, p, now).0;
            r.endpoint != s.endpoint ==>
              && r.endpoint == Some(p.from)
              && (p.from in c.candidates || ProvesEndpoint(c, s, EvReceive(p, now), p.from))
  {
    hide EpochGate, AfterGate, Inv;
    if Active(s) {
      var (s1, gate) := EpochGate(c, s, p, now);
      GateEndpoint(c, s, p, now);
      if gate.Go? {
        AfterGateLearns(c, s1, p, gate.renegotiated, gate.probe, now);
        if gate.probe.Some? && R.Check(s.window, p.number).Advanced() {
          ProbeProves(c, s, p, gate.probe.value, t, now);
        }
      }
    }
  }

  lemma ProbeProves(c: Config, s: State, p: RxPacket, i: nat, t: nat, now: nat)
    requires Inv(c, s, t) && t <= now && p.body.HelloAck? && s.pinned == Some(p.epoch)
    requires R.Check(s.window, p.number).Advanced()
    requires var probes := LiveProbes(s.probes, now);
             i < |probes| && probes[i].to == p.from && probes[i].nonce == p.body.nonce
    ensures ProvesEndpoint(c, s, EvReceive(p, now), p.from)
  {
    LiveProbesAre(s.probes, now);
    var q := LiveProbes(s.probes, now)[i];
    var k: nat :| SentProbe(c, s.out, q, k);
    assert s.out[k].to == p.from && s.out[k].body == Hello(p.body.nonce, c.localVip) && now < s.out[k].at + PROBE_TTL;
  }

  lemma GateEndpoint(c: Config, s: State, p: RxPacket, now: nat)
    ensures var (r, gate) := EpochGate(c, s, p, now);
            && r.endpoint == s.endpoint
            && (gate.Go? && gate.probe.Some? ==>
                  && p.body.HelloAck? && s.pinned == Some(p.epoch) && r.window == s.window
                  && r.probes == LiveProbes(s.probes, now) && gate.probe.value < |r.probes|
                  && !gate.renegotiated
                  && r.probes[gate.probe.value].to == p.from && r.probes[gate.probe.value].nonce == p.body.nonce)
  {
  }

  lemma AfterGateLearns(c: Config, s: State, p: RxPacket, renegotiated: bool, probe: Option<nat>, now: nat)
    requires probe.Some? ==> probe.value < |s.probes|
    ensures var r := AfterGate(c, s, p, renegotiated, probe, now).0;
            r.endpoint != s.endpoint ==>
              && r.endpoint == Some(p.from) && !renegotiated && R.Check(s.window, p.number).Advanced()
              && (probe.Some? || p.from in c.candidates)
  {
    hide Effects, TypeCheck;
    var d := R.Check(s.window, p.number);
    if d.Accepted() {
      var (s2, bad) := TypeCheck(c, CountAccepted(s, p.number), p.body, now);
      if bad.None? && !renegotiated {
        EffectsLearn(c, s2, p, probe, d.Advanced(), now);
      }
    }
  }

  lemma EffectsLearn(c: Config, s: State, p: RxPacket, probe: Option<nat>, advanced: bool, now: nat)
    requires probe.Some? ==> probe.value < |s.probes|
    ensures var r := Effects(c, s, p, probe, advanced, now).0;
            r.endpoint != s.endpoint ==>
              r.endpoint == Some(p.from) && advanced && (probe.Some? || p.from in c.candidates)
  {
    hide Act, StartPathProbe, Settle, EnterTerminal, PhaseOf;
    var s1 := Admit(c, s, p, probe, advanced, now);
    if !p.body.Close? {
      var s2 := Act(c, s1, p, probe, PhaseOf(s), now);
      SettleHolds(c, s2, PhaseOf(s), now);
      SettleHolds(c, StartPathProbe(c, s2, p.from, now), PhaseOf(s), now);
    }
  }

  lemma SettleHolds(c: Config, s: State, before: Phase, now: nat)
    ensures Settle(c, s, before, now).endpoint == s.endpoint
  {
    hide EnterConnected;
  }

  // An event of the run proved this endpoint in the state it met.
  ghost predicate Proven(c: Config, start: nat, events: seq<Event>, endpoint: Endpoint) {
    exists i | 0 <= i < |events| :: ProvesEndpoint(c, Run(c, Initial(start), events[..i]), events[i], endpoint)
  }

  lemma ProvenLater(c: Config, start: nat, events: seq<Event>, n: nat, endpoint: Endpoint)
    requires n <= |events| && Proven(c, start, events[..n], endpoint)
    ensures Proven(c, start, events, endpoint)
  {
    var before := events[..n];
    var i :| 0 <= i < n && ProvesEndpoint(c, Run(c, Initial(start), before[..i]), before[i], endpoint);
    assert before[..i] == events[..i];
  }

  lemma LastStepLearns(c: Config, start: nat, events: seq<Event>)
    requires Timed(start, events) && events != []
    ensures var s := Run(c, Initial(start), events[..|events| - 1]);
            var r := Run(c, Initial(start), events);
            r.endpoint != s.endpoint ==>
              r.endpoint.Some? && (r.endpoint.value in c.candidates || Proven(c, start, events, r.endpoint.value))
  {
    var n := |events| - 1;
    RunKeeps(c, start, events[..n]);
    StepLearns(c, Run(c, Initial(start), events[..n]), events[n], EndOf(start, events[..n]));
  }

  // Main result: at every moment of every run the peer endpoint, once there is one, is a supplied
  // candidate or was proven by an earlier event of that run.
  lemma {:induction false} EndpointProvenance(c: Config, start: nat, events: seq<Event>)
    requires Timed(start, events)
    ensures var s := Run(c, Initial(start), events);
            s.endpoint.Some? ==> s.endpoint.value in c.candidates || Proven(c, start, events, s.endpoint.value)
  {
    if events != [] {
      var n := |events| - 1;
      EndpointProvenance(c, start, events[..n]);
      LastStepLearns(c, start, events);
      var s := Run(c, Initial(start), events[..n]);
      if s.endpoint.Some? && s.endpoint.value !in c.candidates {
        ProvenLater(c, start, events, n, s.endpoint.value);
      }
    }
  }
}
