/**
 What every run of the STUN stage keeps, and when the stage ends.
 */
module StunSafety {
  import opened Wrappers
  import opened StunSpec

  // ---------------------------------------------------------------- the invariant

  predicate Asked(s: State, server: nat) {
    exists k | 0 <= k < |s.slots| :: s.slots[k].active && s.slots[k].server == server
  }

  // An active slot has its deadline armed, and its retry while sends are left.
  predicate SlotOk(s: State, k: nat)
    requires k < |s.slots|
  {
    var slot := s.slots[k];
    slot.active ==>
      && slot.server < s.next && 1 <= slot.sent <= MAX_SENDS
      && Deadline(slot.server) in s.timers
      && (Retry(slot.server) in s.timers <==> slot.sent < MAX_SENDS)
      && multiset(s.sends)[slot.server] == slot.sent
  }

  ghost predicate SlotsOk(c: Config, s: State) {
    && |s.slots| == 2 && s.next <= c.servers
    && SlotOk(s, 0) && SlotOk(s, 1)
    && (s.slots[0].active && s.slots[1].active ==> s.slots[0].server != s.slots[1].server)
  }

  // No timer of the stage without an active slot.
  ghost predicate TimersOk(s: State) {
    forall name | name in s.timers && !name.Other? :: Asked(s, name.server)
  }

  // No server is asked more than four times, and none twice over.
  ghost predicate SendsOk(s: State) {
    forall i: nat :: multiset(s.sends)[i] <= if i < s.next then MAX_SENDS else 0
  }

  // Each mapping is from another server, and from one that is no longer asked.
  ghost predicate MappingsOk(s: State) {
    && |s.mappings| <= REQUIRED
    && (forall i | 0 <= i < |s.mappings| :: s.mappings[i].server < s.next && !Asked(s, s.mappings[i].server))
    && (forall i, j | 0 <= i < j < |s.mappings| :: s.mappings[i].server != s.mappings[j].server)
  }

  ghost predicate Core(c: Config, s: State) {
    SlotsOk(c, s) && TimersOk(s) && SendsOk(s) && MappingsOk(s)
  }

  predicate NoneActive(s: State)
    requires |s.slots| == 2
  {
    !s.slots[0].active && !s.slots[1].active
  }

  predicate BothActive(s: State)
    requires |s.slots| == 2
  {
    s.slots[0].active && s.slots[1].active
  }

  ghost predicate PhaseOk(c: Config, s: State)
    requires |s.slots| == 2
  {
    match s.phase
    case Idle => NoneActive(s) && s.next == 0 && s.mappings == []
    case Running => |s.mappings| < REQUIRED && !NoneActive(s) && (BothActive(s) || s.next == c.servers)
    case Succeeded => NoneActive(s) && |s.mappings| == REQUIRED
    case Failed => NoneActive(s) && |s.mappings| < REQUIRED
  }

  // ---------------------------------------------------------------- deadlines of the slots

  predicate DueBy(s: State, k: nat, limit: nat)
    requires k < |s.slots|
  {
    s.slots[k].active && Deadline(s.slots[k].server) in s.timers ==> s.timers[Deadline(s.slots[k].server)] <= limit
  }

  // With m servers started: every deadline falls within ceil(m/2) periods of the start, and the
  // earlier of two within floor(m/2).
  predicate Paced(s: State, start: nat)
    requires |s.slots| == 2
  {
    && DueBy(s, 0, start + DEADLINE * ((s.next + 1) / 2)) && DueBy(s, 1, start + DEADLINE * ((s.next + 1) / 2))
    && (BothActive(s) ==> DueBy(s, 0, start + DEADLINE * (s.next / 2)) || DueBy(s, 1, start + DEADLINE * (s.next / 2)))
  }

  // May start another query now without falling behind.
  predicate InPace(c: Config, s: State, start: nat, now: nat)
    requires |s.slots| == 2
  {
    Paced(s, start) && (!BothActive(s) && s.next < c.servers ==> now <= start + DEADLINE * (s.next / 2))
  }

  ghost predicate Inv(c: Config, s: State, start: nat) {
    Core(c, s) && PhaseOk(c, s) && (s.phase == Running ==> Paced(s, start))
  }

  // ---------------------------------------------------------------- parts of a step

  lemma InFlightOfTwo(slots: seq<Slot>)
    requires |slots| == 2
    ensures InFlight(slots) == (if slots[0].active then 1 else 0) + if slots[1].active then 1 else 0
  {
    assert InFlight(slots[1..]) == (if slots[1].active then 1 else 0) + InFlight(slots[1..][1..]);
  }

  lemma BeginKeeps(c: Config, s: State, k: nat, now: nat, start: nat)
    requires Core(c, s) && k < 2 && !s.slots[k].active && s.next < c.servers && InPace(c, s, start, now)
    ensures var (r, ok) := BeginQuery(c, s.(next := s.next + 1), k, s.next, now);
            && |r.slots| == 2 && r.next == s.next + 1 && r.mappings == s.mappings && r.phase == s.phase
            && Core(c, r) && r.slots[1 - k] == s.slots[1 - k] && r.slots[k].active == ok
  {
    TurnIsNew(c, s);
    BeginKeepsTimers(c, s, k, now);
    BeginKeepsMappings(c, s, k, now);
    hide TimersOk, MappingsOk, InPace;
  }

  lemma TurnIsNew(c: Config, s: State)
    requires Core(c, s)
    ensures !Asked(s, s.next) && Retry(s.next) !in s.timers && Deadline(s.next) !in s.timers
  {
    hide SendsOk, MappingsOk;
  }

  lemma BeginKeepsTimers(c: Config, s: State, k: nat, now: nat)
    requires TimersOk(s) && |s.slots| == 2 && k < 2 && !s.slots[k].active
    requires Retry(s.next) !in s.timers && Deadline(s.next) !in s.timers
    ensures TimersOk(BeginQuery(c, s.(next := s.next + 1), k, s.next, now).0)
  {
    var r := BeginQuery(c, s.(next := s.next + 1), k, s.next, now).0;
    forall name | name in r.timers && !name.Other?
      ensures Asked(r, name.server)
    {
      if name.server == s.next {
        assert r.slots[k].server == s.next;
      } else {
        assert name in s.timers;
        var j :| 0 <= j < 2 && s.slots[j].active && s.slots[j].server == name.server;
        assert r.slots[j] == s.slots[j];
      }
    }
  }

  lemma BeginKeepsMappings(c: Config, s: State, k: nat, now: nat)
    requires MappingsOk(s) && |s.slots| == 2 && k < 2 && !s.slots[k].active
    ensures MappingsOk(BeginQuery(c, s.(next := s.next + 1), k, s.next, now).0)
  {
    var r := BeginQuery(c, s.(next := s.next + 1), k, s.next, now).0;
    forall i | 0 <= i < |r.mappings|
      ensures r.mappings[i].server < r.next && !Asked(r, r.mappings[i].server)
    {
      assert !Asked(s, s.mappings[i].server);
    }
  }

  lemma BeginKeepsPace(c: Config, s: State, k: nat, now: nat, start: nat)
    requires Core(c, s) && k < 2 && !s.slots[k].active && s.next < c.servers && InPace(c, s, start, now)
    requires s.next == 0 ==> now == start
    requires NoneActive(s) ==> s.next == 0
    ensures var (r, ok) := BeginQuery(c, s.(next := s.next + 1), k, s.next, now);
            ok ==> InPace(c, r, start, now)
  {
    TurnIsNew(c, s);
    hide TimersOk, MappingsOk, SendsOk;
    var (r, ok) := BeginQuery(c, s.(next := s.next + 1), k, s.next, now);
    if ok {
      assert r.timers[Deadline(s.next)] == now + DEADLINE;
      var j := 1 - k;
      if s.slots[j].active {
        assert r.timers[Deadline(s.slots[j].server)] == s.timers[Deadline(s.slots[j].server)];
      }
    }
  }

  lemma ReleaseKeeps(c: Config, s: State, k: nat)
    requires Core(c, s) && k < 2 && s.slots[k].active
    ensures var r := Release(s, k);
            && Core(c, r) && !r.slots[k].active && r.slots[1 - k] == s.slots[1 - k]
            && (r.slots[1 - k].active ==>
                  Deadline(r.slots[1 - k].server) in r.timers
                  && r.timers[Deadline(r.slots[1 - k].server)] == s.timers[Deadline(r.slots[1 - k].server)])
  {
    var r := Release(s, k);
    forall name | name in r.timers && !name.Other?
      ensures Asked(r, name.server)
    {
      var j :| 0 <= j < 2 && s.slots[j].active && s.slots[j].server == name.server;
      assert j != k;
      assert r.slots[j] == s.slots[j];
    }
    forall i | 0 <= i < |r.mappings|
      ensures !Asked(r, r.mappings[i].server)
    {
      assert !Asked(s, s.mappings[i].server);
    }
  }

  // The slot's server answered: its mapping is noted, then the slot is free.
  lemma AnswerKeeps(c: Config, s: State, k: nat, mapped: Endpoint)
    requires Core(c, s) && k < 2 && s.slots[k].active && |s.mappings| < REQUIRED
    ensures Core(c, Release(s, k)) && !Asked(Release(s, k), s.slots[k].server)
    ensures Core(c, Release(s.(mappings := s.mappings + [Mapping(s.slots[k].server, mapped)]), k))
  {
    ReleaseKeeps(c, s, k);
    var r := Release(s, k);
    var server := s.slots[k].server;
    var t := Release(s.(mappings := s.mappings + [Mapping(server, mapped)]), k);
    assert t == r.(mappings := s.mappings + [Mapping(server, mapped)]);
    assert Asked(s, server);
    assert !Asked(r, server);
    forall i | 0 <= i < |t.mappings|
      ensures t.mappings[i].server < t.next && !Asked(r, t.mappings[i].server)
      ensures i < |s.mappings| ==> t.mappings[i].server != server
    {
      if i < |s.mappings| {
        assert t.mappings[i] == r.mappings[i];
        assert !Asked(s, s.mappings[i].server);
      }
    }
    forall i | 0 <= i < |t.mappings|
      ensures !Asked(t, t.mappings[i].server)
    {
      assert !Asked(r, t.mappings[i].server);
    }
    forall name | name in t.timers && !name.Other?
      ensures Asked(t, name.server)
    {
      assert Asked(r, name.server);
    }
  }

  lemma {:induction false} ReleaseAllKeeps(c: Config, s: State)
    requires Core(c, s)
    ensures var r := ReleaseAll(s, 0);
            Core(c, r) && NoneActive(r) && r.mappings == s.mappings && r.phase == s.phase
  {
    var s1 := if s.slots[0].active then Release(s, 0) else s;
    if s.slots[0].active {
      ReleaseKeeps(c, s, 0);
    }
    var s2 := if s1.slots[1].active then Release(s1, 1) else s1;
    if s1.slots[1].active {
      ReleaseKeeps(c, s1, 1);
    }
    assert ReleaseAll(s, 0) == ReleaseAll(s1, 1) == ReleaseAll(s2, 2) == s2;
  }

  lemma CorePhase(c: Config, s: State, phase: Phase)
    requires Core(c, s)
    ensures Core(c, s.(phase := phase))
  {
    var r := s.(phase := phase);
    forall name | name in r.timers && !name.Other?
      ensures Asked(r, name.server)
    {
      assert Asked(s, name.server);
    }
    forall i | 0 <= i < |r.mappings|
      ensures !Asked(r, r.mappings[i].server)
    {
      assert !Asked(s, s.mappings[i].server);
    }
  }

  // ---------------------------------------------------------------- whole calls

  lemma {:induction false} FillKeeps(c: Config, s: State, now: nat, start: nat)
    requires Core(c, s) && InPace(c, s, start, now)
    requires s.next == 0 ==> now == start
    requires NoneActive(s) ==> s.next == 0 || s.next == c.servers
    ensures var (r, ok) := FillSlots(c, s, now);
            && Core(c, r) && r.mappings == s.mappings && r.phase == s.phase
            && (!ok ==> |s.mappings| < REQUIRED)
            && (ok ==> Paced(r, start) && (|r.mappings| < REQUIRED ==> BothActive(r) || r.next == c.servers))
    decreases c.servers - s.next
  {
    hide TimersOk, SendsOk, MappingsOk, SlotOk;
    InFlightOfTwo(s.slots);
    var free := FreeSlot(s.slots, 0);
    if MoreToAsk(c, s) && free.Some? {
      BeginKeeps(c, s, free.value, now, start);
      BeginKeepsPace(c, s, free.value, now, start);
      var (s1, ok) := BeginQuery(c, s.(next := s.next + 1), free.value, s.next, now);
      if ok {
        FillKeeps(c, s1, now, start);
      }
    }
  }

  lemma RefillKeeps(c: Config, s: State, now: nat, start: nat)
    requires Core(c, s) && InPace(c, s, start, now) && !Finished(s)
    requires s.next == 0 ==> now == start
    requires NoneActive(s) ==> s.next == 0 || s.next == c.servers
    ensures Inv(c, Refill(c, s, now), start) && Refill(c, s, now).phase != Idle
  {
    hide FillSlots, Core, ReleaseAll;
    FillKeeps(c, s, now, start);
    var (s1, ok) := FillSlots(c, s, now);
    assert |s1.slots| == 2 && |s1.mappings| <= REQUIRED by { CoreSizes(c, s1); }
    InFlightOfTwo(s1.slots);
    FailKeeps(c, s1);
    CorePhase(c, s1, Succeeded);
    ReleaseAllKeeps(c, s1.(phase := Succeeded));
    CorePhase(c, s1, Running);
  }

  lemma CoreSizes(c: Config, s: State)
    requires Core(c, s)
    ensures |s.slots| == 2 && |s.mappings| <= REQUIRED
  {
  }

  lemma FailKeeps(c: Config, s: State)
    requires Core(c, s)
    ensures Core(c, FailStage(s)) && NoneActive(FailStage(s)) && FailStage(s).phase == Failed
    ensures FailStage(s).mappings == s.mappings
  {
    ReleaseAllKeeps(c, s);
    CorePhase(c, ReleaseAll(s, 0), Failed);
  }

  lemma StartKeeps(c: Config, s: State, now: nat)
    requires Inv(c, s, now) && s.phase == Idle
    ensures Inv(c, Start(c, s, now), now) && Start(c, s, now).phase != Idle
  {
    hide Refill, ReleaseAll;
    if c.servers < REQUIRED {
      FailKeeps(c, s);
    } else {
      RefillKeeps(c, s, now, now);
    }
  }

  // A slot ends in time: what is left may be filled up again.
  lemma ReleasedInPace(c: Config, s: State, k: nat, now: nat, start: nat)
    requires Core(c, s) && PhaseOk(c, s) && s.phase == Running && Paced(s, start)
    requires k < 2 && s.slots[k].active
    requires forall name | name in s.timers && !name.Other? :: now <= s.timers[name]
    ensures InPace(c, Release(s, k), start, now)
    ensures NoneActive(Release(s, k)) ==> s.next == c.servers
  {
    ReleaseKeeps(c, s, k);
    if BothActive(s) {
      assert SlotOk(s, 0) && SlotOk(s, 1);
    }
  }

  lemma DeadlineKeeps(c: Config, s: State, server: nat, now: nat, start: nat)
    requires Inv(c, s, start) && OnTime(s, Tick(Deadline(server), now)) && Deadline(server) in s.timers
    ensures Inv(c, Step(c, s, Tick(Deadline(server), now)), start)
    ensures Step(c, s, Tick(Deadline(server), now)).phase != Idle
  {
    hide Refill, InFlight;
    var s0 := s.(timers := s.timers - {Deadline(server)});
    assert Asked(s, server);
    var k := FindServer(s.slots, server, 0);
    assert k.Some?;
    assert Release(s0, k.value) == Release(s, k.value) by {
      assert s0.timers - {Retry(server)} - {Deadline(server)} == s.timers - {Retry(server)} - {Deadline(server)};
    }
    ReleaseKeeps(c, s, k.value);
    ReleasedInPace(c, s, k.value, now, start);
    assert s.next > 0;
    RefillKeeps(c, Release(s, k.value), now, start);
    assert Step(c, s, Tick(Deadline(server), now)) == OnTimer(c, s0, Deadline(server), now);
  }

  // What a retry leaves: one more send, and the next retry armed while there are any left.
  function Resent(s: State, k: nat, now: nat): State
    requires k < |s.slots|
  {
    var slot := s.slots[k];
    var name, sent := Retry(slot.server), slot.sent + 1;
    s.(slots := s.slots[k := slot.(sent := sent)], sends := s.sends + [slot.server],
       timers := if sent < MAX_SENDS then (s.timers - {name})[name := now + RetryInterval(sent)] else s.timers - {name})
  }

  lemma RetryKeeps(c: Config, s: State, server: nat, now: nat, start: nat)
    requires Inv(c, s, start) && Retry(server) in s.timers
    ensures Inv(c, Step(c, s, Tick(Retry(server), now)), start)
    ensures s.phase == Running
  {
    assert Asked(s, server);
    var k := FindServer(s.slots, server, 0).value;
    assert SlotOk(s, k) && s.slots[k].sent < MAX_SENDS;
    assert Step(c, s, Tick(Retry(server), now)) == Resent(s, k, now);
    ResentKeepsSends(s, k, now);
    ResentKeepsSlots(c, s, k, now);
    ResentKeepsPace(s, k, now, start);
    ResentKeepsAsked(s, k, now);
    hide SlotsOk, SendsOk, TimersOk, MappingsOk, Paced, Asked, FindServer, Step;
  }

  lemma ResentKeepsSends(s: State, k: nat, now: nat)
    requires SendsOk(s) && k < |s.slots| && SlotOk(s, k) && s.slots[k].active && s.slots[k].sent < MAX_SENDS
    ensures SendsOk(Resent(s, k, now))
  {
    OneMoreSend(s.sends, s.slots[k].server);
  }

  lemma OneMoreSend(sends: seq<nat>, server: nat)
    ensures forall i: nat :: multiset(sends + [server])[i] == multiset(sends)[i] + if i == server then 1 else 0
  {
  }

  lemma ResentKeepsSlots(c: Config, s: State, k: nat, now: nat)
    requires SlotsOk(c, s) && k < 2 && s.slots[k].active && s.slots[k].sent < MAX_SENDS
    ensures SlotsOk(c, Resent(s, k, now))
  {
    OneMoreSend(s.sends, s.slots[k].server);
    ResentKeepsSlot(s, k, now, 1 - k);
    ResentKeepsSlot(s, k, now, k);
    hide SlotOk;
  }

  lemma ResentKeepsSlot(s: State, k: nat, now: nat, j: nat)
    requires k < |s.slots| && j < |s.slots| && SlotOk(s, k) && SlotOk(s, j) && s.slots[k].active && s.slots[k].sent < MAX_SENDS
    requires j != k && s.slots[j].active ==> s.slots[j].server != s.slots[k].server
    ensures SlotOk(Resent(s, k, now), j)
  {
    OneMoreSend(s.sends, s.slots[k].server);
  }

  lemma ResentKeepsPace(s: State, k: nat, now: nat, start: nat)
    requires |s.slots| == 2 && k < 2 && Paced(s, start)
    ensures Paced(Resent(s, k, now), start)
  {
  }

  lemma ResentKeepsAsked(s: State, k: nat, now: nat)
    requires TimersOk(s) && MappingsOk(s) && k < |s.slots| && s.slots[k].active
    ensures TimersOk(Resent(s, k, now)) && MappingsOk(Resent(s, k, now))
  {
    var r := Resent(s, k, now);
    SameAsked(s, r, k);
    assert Asked(s, s.slots[k].server);
    forall name | name in r.timers && !name.Other?
      ensures Asked(r, name.server)
    {
      assert name in s.timers || name.server == s.slots[k].server;
    }
    hide Asked;
  }

  lemma SameAsked(s: State, r: State, k: nat)
    requires k < |s.slots| == |r.slots|
    requires r.slots[k].active == s.slots[k].active && r.slots[k].server == s.slots[k].server
    requires forall j | 0 <= j < |s.slots| && j != k :: r.slots[j] == s.slots[j]
    ensures forall i: nat :: Asked(r, i) <==> Asked(s, i)
  {
    forall i: nat
      ensures Asked(r, i) <==> Asked(s, i)
    {
      assert forall j | 0 <= j < |s.slots| :: r.slots[j].active == s.slots[j].active && r.slots[j].server == s.slots[j].server;
    }
  }

  lemma DatagramKeeps(c: Config, s: State, d: Datagram, now: nat, start: nat)
    requires Inv(c, s, start) && OnTime(s, Receive(d, now))
    ensures Inv(c, OnDatagram(c, s, d, now), start)
    ensures s.phase != Idle ==> OnDatagram(c, s, d, now).phase != Idle
    ensures s.phase != Running ==> OnDatagram(c, s, d, now) == s.(dropped := OnDatagram(c, s, d, now).dropped)
  {
    hide Refill, InFlight, SendsOk, TimersOk;
    DroppedKeeps(c, s, start, s.dropped + 1);
    if d.Answer? && d.id !in s.resolved {
      var k := FindId(s.slots, d.id, 0);
      if k.Some? && !d.verdict.Malformed? {
        ReleaseKeeps(c, s, k.value);
        ReleasedInPace(c, s, k.value, now, start);
        assert s.next > 0;
        if d.verdict.Mapped? {
          var s1 := s.(mappings := s.mappings + [Mapping(s.slots[k.value].server, d.verdict.mapped)]);
          AnswerKeeps(c, s, k.value, d.verdict.mapped);
          assert InPace(c, Release(s1, k.value), start, now);
          RefillKeeps(c, Release(s1, k.value), now, start);
        } else {
          RefillKeeps(c, Release(s, k.value), now, start);
        }
      }
    }
  }

  lemma DroppedKeeps(c: Config, s: State, start: nat, dropped: nat)
    requires Inv(c, s, start)
    ensures Inv(c, s.(dropped := dropped), start)
  {
    var r := s.(dropped := dropped);
    CoreFrame(c, s, r);
  }

  // The core reads neither the draws, the drop counter nor timers of other owners.
  lemma CoreFrame(c: Config, s: State, r: State)
    requires Core(c, s)
    requires r == s.(dropped := r.dropped, timers := r.timers)
    requires forall name: Name | !name.Other? :: name in r.timers <==> name in s.timers
    ensures Core(c, r)
  {
    forall name | name in r.timers && !name.Other?
      ensures Asked(r, name.server)
    {
      assert Asked(s, name.server);
    }
    forall i | 0 <= i < |r.mappings|
      ensures !Asked(r, r.mappings[i].server)
    {
      assert !Asked(s, s.mappings[i].server);
    }
  }

  // Timers of other owners come and go.
  lemma OthersKeep(c: Config, s: State, timers: map<Name, nat>, start: nat)
    requires Inv(c, s, start)
    requires forall name: Name | !name.Other? ::
               && (name in timers <==> name in s.timers)
               && (name in timers ==> timers[name] == s.timers[name])
    ensures Inv(c, s.(timers := timers), start)
  {
    CoreFrame(c, s, s.(timers := timers));
  }

  lemma StepKeeps(c: Config, s: State, e: Event, start: nat)
    requires Inv(c, s, start) && OnTime(s, e) && (s.phase == Idle && e.Begin? ==> e.now == start)
    ensures Inv(c, Step(c, s, e), start)
    ensures s.phase != Idle ==> Step(c, s, e).phase != Idle
  {
    hide Inv, Refill, Release;
    match e
    case Begin(now) =>
      if s.phase == Idle {
        StartKeeps(c, s, now);
      }
    case Tick(name, now) =>
      if name in s.timers {
        match name
        case Retry(server) => RetryKeeps(c, s, server, now, start);
        case Deadline(server) => DeadlineKeeps(c, s, server, now, start);
        case Other(_) => OthersKeep(c, s, s.timers - {name}, start);
      }
    case Receive(d, now) => DatagramKeeps(c, s, d, now, start);
    case Add(id, deadline, _) => OthersKeep(c, s, AddOnce(s.timers, Other(id), deadline), start);
    case Cancel(id, _) => OthersKeep(c, s, s.timers - {Other(id)}, start);
  }

  // ---------------------------------------------------------------- every run

  // The set holds no timer of the stage before it starts.
  predicate Foreign(timers: map<Name, nat>) {
    forall name | name in timers :: name.Other?
  }

  lemma {:induction false} RunKeeps(c: Config, timers: map<Name, nat>, events: seq<Event>)
    requires Foreign(timers) && Prompt(c, Initial(timers), events) && events != []
    ensures Inv(c, Run(c, Initial(timers), events), events[0].now)
    ensures Run(c, Initial(timers), events).phase != Idle
  {
    var n := |events| - 1;
    var s := Run(c, Initial(timers), events[..n]);
    if n == 0 {
      StartKeeps(c, s, events[0].now);
    } else {
      RunKeeps(c, timers, events[..n]);
      StepKeeps(c, s, events[n], events[0].now);
    }
  }

  // Main result: however servers answer, each is sent at most four requests; success is exactly two
  // mappings, of two servers; and a finished stage has no timer left in the set.
  lemma StageIsOrderly(c: Config, timers: map<Name, nat>, events: seq<Event>)
    requires Foreign(timers) && Prompt(c, Initial(timers), events) && events != []
    ensures var s := Run(c, Initial(timers), events);
            && (forall i: nat :: multiset(s.sends)[i] <= MAX_SENDS)
            && (s.phase == Succeeded ==> |s.mappings| == 2 && s.mappings[0].server != s.mappings[1].server)
            && (Finished(s) ==> (s.phase == Succeeded <==> |s.mappings| >= REQUIRED))
            && (Finished(s) ==> forall name | name in s.timers :: name.Other?)
  {
    hide Run, Prompt, MappingsOk, SlotsOk;
    RunKeeps(c, timers, events);
    FinishedIsQuiet(c, Run(c, Initial(timers), events), events[0].now);
  }

  lemma FinishedIsQuiet(c: Config, s: State, start: nat)
    requires Inv(c, s, start)
    ensures Finished(s) ==> forall name | name in s.timers :: name.Other?
    ensures Finished(s) ==> (s.phase == Succeeded <==> |s.mappings| >= REQUIRED)
    ensures s.phase == Succeeded ==> |s.mappings| == 2 && s.mappings[0].server != s.mappings[1].server
  {
    hide SendsOk;
  }

  // Main result: with timers delivered at their deadlines, a stage that is still running has a
  // deadline armed within five seconds for every two servers of the list, counted from its start;
  // so nothing ever happens to a running stage after that.
  lemma StageEndsInTime(c: Config, timers: map<Name, nat>, events: seq<Event>, last: Event)
    requires Foreign(timers) && Prompt(c, Initial(timers), events + [last]) && events != []
    ensures events[0].now + StageCap(c.servers) < last.now ==> Finished(Run(c, Initial(timers), events))
  {
    assert (events + [last])[..|events|] == events;
    RunKeeps(c, timers, events);
    var s := Run(c, Initial(timers), events);
    assert OnTime(s, last);
    hide Run, Prompt, SendsOk, TimersOk, MappingsOk, SlotOk;
    RunningHasDeadline(c, s, events[0].now, last);
  }

  lemma RunningHasDeadline(c: Config, s: State, start: nat, last: Event)
    requires Inv(c, s, start) && s.phase != Idle && OnTime(s, last)
    ensures s.phase == Running ==> last.now <= start + StageCap(c.servers)
  {
    hide SendsOk, TimersOk, MappingsOk;
    if s.phase == Running {
      var k := if s.slots[0].active then 0 else 1;
      assert SlotOk(s, k);
      assert last.now <= s.timers[Deadline(s.slots[k].server)] <= start + DEADLINE * ((s.next + 1) / 2);
      assert (s.next + 1) / 2 <= (c.servers + 1) / 2;
    }
  }

  // A step of the stage leaves the timers of other owners alone.
  lemma OthersUntouched(c: Config, s: State, e: Event, id: nat)
    requires |s.slots| == 2 && (e.Begin? || e.Receive? || (e.Tick? && !e.name.Other?))
    ensures Other(id) in Step(c, s, e).timers <==> Other(id) in s.timers
    ensures Other(id) in s.timers ==> Step(c, s, e).timers[Other(id)] == s.timers[Other(id)]
  {
    if e.Tick? && e.name in s.timers {
      var s0 := s.(timers := s.timers - {e.name});
      var k := FindServer(s0.slots, e.name.server, 0);
      if k.Some? {
        RefillLeavesOthers(c, Release(s0, k.value), e.now, id);
      }
    } else if e.Receive? && e.datagram.Answer? {
      var k := FindId(s.slots, e.datagram.id, 0);
      if k.Some? {
        RefillLeavesOthers(c, Release(s, k.value), e.now, id);
        if e.datagram.verdict.Mapped? {
          var s1 := s.(mappings := s.mappings + [Mapping(s.slots[k.value].server, e.datagram.verdict.mapped)]);
          RefillLeavesOthers(c, Release(s1, k.value), e.now, id);
        }
      }
    } else if e.Begin? {
      RefillLeavesOthers(c, s, e.now, id);
      ReleaseAllLeavesOthers(s, 0, id);
    }
  }

  predicate SameOther(s: State, r: State, id: nat) {
    && (Other(id) in r.timers <==> Other(id) in s.timers)
    && (Other(id) in s.timers ==> r.timers[Other(id)] == s.timers[Other(id)])
  }

  lemma {:induction false} ReleaseAllLeavesOthers(s: State, k: nat, id: nat)
    requires k <= |s.slots|
    ensures SameOther(s, ReleaseAll(s, k), id)
    decreases |s.slots| - k
  {
    if k < |s.slots| {
      ReleaseAllLeavesOthers(if s.slots[k].active then Release(s, k) else s, k + 1, id);
    }
  }

  lemma {:induction false} FillLeavesOthers(c: Config, s: State, now: nat, id: nat)
    ensures SameOther(s, FillSlots(c, s, now).0, id)
    decreases c.servers - s.next
  {
    var free := FreeSlot(s.slots, 0);
    if MoreToAsk(c, s) && free.Some? {
      var (s1, ok) := BeginQuery(c, s.(next := s.next + 1), free.value, s.next, now);
      if ok {
        FillLeavesOthers(c, s1, now, id);
      }
    }
  }

  lemma RefillLeavesOthers(c: Config, s: State, now: nat, id: nat)
    ensures SameOther(s, Refill(c, s, now), id)
  {
    FillLeavesOthers(c, s, now, id);
    var s1 := FillSlots(c, s, now).0;
    ReleaseAllLeavesOthers(s1, 0, id);
    ReleaseAllLeavesOthers(s1.(phase := Succeeded), 0, id);
  }

  // ---------------------------------------------------------------- each server in one go

  // Servers asked after s are those asked in s and those whose turn it was.
  ghost predicate Onward(s: State, r: State) {
    && |r.slots| == |s.slots| && r.next >= s.next
    && forall i: nat | Asked(r, i) :: Asked(s, i) || s.next <= i < r.next
  }

  lemma ReleaseOnward(s: State, k: nat)
    requires k < |s.slots|
    ensures Onward(s, Release(s, k))
  {
    var r := Release(s, k);
    forall i: nat | Asked(r, i)
      ensures Asked(s, i)
    {
      var j :| 0 <= j < |r.slots| && r.slots[j].active && r.slots[j].server == i;
      assert s.slots[j].active && s.slots[j].server == i;
    }
  }

  lemma {:induction false} ReleaseAllOnward(s: State, k: nat)
    requires k <= |s.slots|
    ensures Onward(s, ReleaseAll(s, k))
    decreases |s.slots| - k
  {
    if k < |s.slots| {
      ReleaseOnward(s, k);
      ReleaseAllOnward(if s.slots[k].active then Release(s, k) else s, k + 1);
    }
  }

  lemma BeginOnward(c: Config, s: State, k: nat, now: nat)
    requires k < |s.slots|
    ensures Onward(s, BeginQuery(c, s.(next := s.next + 1), k, s.next, now).0)
  {
    var r := BeginQuery(c, s.(next := s.next + 1), k, s.next, now).0;
    forall i: nat | Asked(r, i)
      ensures Asked(s, i) || i == s.next
    {
      var j :| 0 <= j < |r.slots| && r.slots[j].active && r.slots[j].server == i;
      assert j != k ==> s.slots[j] == r.slots[j];
    }
  }

  lemma {:induction false} FillOnward(c: Config, s: State, now: nat)
    ensures Onward(s, FillSlots(c, s, now).0)
    decreases c.servers - s.next
  {
    var free := FreeSlot(s.slots, 0);
    if MoreToAsk(c, s) && free.Some? {
      var (s1, ok) := BeginQuery(c, s.(next := s.next + 1), free.value, s.next, now);
      BeginOnward(c, s, free.value, now);
      hide Asked, BeginQuery;
      if ok {
        FillOnward(c, s1, now);
      }
    }
  }

  lemma SameSlots(s: State, r: State)
    requires s.slots == r.slots && s.next == r.next
    ensures Onward(s, r)
  {
    assert forall i: nat :: Asked(r, i) <==> Asked(s, i);
  }

  lemma ThenOnward(s: State, r: State, t: State)
    requires Onward(s, r) && Onward(r, t)
    ensures Onward(s, t)
  {
  }

  lemma RefillOnward(c: Config, s: State, now: nat)
    ensures Onward(s, Refill(c, s, now))
  {
    FillOnward(c, s, now);
    var s1 := FillSlots(c, s, now).0;
    ReleaseAllOnward(s1, 0);
    ReleaseAllOnward(s1.(phase := Succeeded), 0);
    SameSlots(s, s);
    var r := Refill(c, s, now);
    SameSlots(s1, s1.(phase := Running));
    SameSlots(s1, s1.(phase := Succeeded));
    SameSlots(ReleaseAll(s1, 0), FailStage(s1));
    hide Onward, Asked;
    ThenOnward(s, s1, s1.(phase := Running));
    ThenOnward(s, s1, s1.(phase := Succeeded));
    ThenOnward(s, s1, ReleaseAll(s1, 0));
    ThenOnward(s, ReleaseAll(s1, 0), FailStage(s1));
    ThenOnward(s, s1.(phase := Succeeded), ReleaseAll(s1.(phase := Succeeded), 0));
  }

  lemma EndThenRefillOnward(c: Config, s: State, s1: State, k: nat, now: nat)
    requires k < |s.slots| && s1.slots == s.slots && s1.next == s.next
    ensures Onward(s, Refill(c, Release(s1, k), now))
  {
    SameSlots(s, s1);
    ReleaseOnward(s1, k);
    RefillOnward(c, Release(s1, k), now);
    hide Onward, Asked, Refill, Release;
    ThenOnward(s, s1, Release(s1, k));
    ThenOnward(s, Release(s1, k), Refill(c, Release(s1, k), now));
  }

  lemma TimerOnward(c: Config, s: State, name: Name, now: nat)
    ensures Onward(s, OnTimer(c, s, name, now))
  {
    SameSlots(s, s);
    var k := if name.Other? then None else FindServer(s.slots, name.server, 0);
    if k.Some? {
      EndThenRefillOnward(c, s, s, k.value, now);
      var slot := s.slots[k.value];
      ResentOnward(s, s.(slots := s.slots[k.value := slot.(sent := slot.sent + 1)]), k.value);
      SameSlots(s.(slots := s.slots[k.value := slot.(sent := slot.sent + 1)]),
                s.(slots := s.slots[k.value := slot.(sent := slot.sent + 1)], sends := s.sends + [slot.server]));
      hide Onward, Asked, Refill, Release;
      var r := OnTimer(c, s, name, now);
      if !Finished(s) && name.Retry? && slot.sent < MAX_SENDS {
        SameSlots(s.(slots := s.slots[k.value := slot.(sent := slot.sent + 1)]), r);
        ThenOnward(s, s.(slots := s.slots[k.value := slot.(sent := slot.sent + 1)]), r);
      }
    }
  }

  lemma ResentOnward(s: State, r: State, k: nat)
    requires k < |s.slots| == |r.slots| && s.next == r.next
    requires r.slots[k].active == s.slots[k].active && r.slots[k].server == s.slots[k].server
    requires forall j | 0 <= j < |s.slots| && j != k :: r.slots[j] == s.slots[j]
    ensures Onward(s, r)
  {
    forall i: nat | Asked(r, i)
      ensures Asked(s, i)
    {
      var j :| 0 <= j < |r.slots| && r.slots[j].active && r.slots[j].server == i;
      assert s.slots[j].active && s.slots[j].server == i;
    }
  }

  lemma DatagramOnward(c: Config, s: State, d: Datagram, now: nat)
    ensures Onward(s, OnDatagram(c, s, d, now))
  {
    SameSlots(s, s);
    SameSlots(s, s.(dropped := s.dropped + 1));
    var k := if d.NoId? then None else FindId(s.slots, d.id, 0);
    if k.Some? {
      EndThenRefillOnward(c, s, s, k.value, now);
      if d.verdict.Mapped? {
        var s1 := s.(mappings := s.mappings + [Mapping(s.slots[k.value].server, d.verdict.mapped)]);
        EndThenRefillOnward(c, s, s1, k.value, now);
      }
    }
    hide Onward, Asked, Refill, Release;
  }

  lemma StepOnward(c: Config, s: State, e: Event)
    ensures Onward(s, Step(c, s, e))
  {
    var r := Step(c, s, e);
    SameSlots(s, s);
    match e
    case Begin(now) =>
      RefillOnward(c, s, now);
      ReleaseAllOnward(s, 0);
      SameSlots(ReleaseAll(s, 0), FailStage(s));
      hide Onward, Asked, Refill, FailStage;
      ThenOnward(s, ReleaseAll(s, 0), FailStage(s));
    case Tick(name, now) =>
      var s0 := s.(timers := s.timers - {name});
      SameSlots(s, s0);
      TimerOnward(c, s0, name, now);
      hide Onward, Asked, OnTimer;
      ThenOnward(s, s0, OnTimer(c, s0, name, now));
    case Receive(d, now) => DatagramOnward(c, s, d, now);
    case Add(_, _, _) => SameSlots(s, r);
    case Cancel(_, _) => SameSlots(s, r);
  }

  lemma {:induction false} RunOnward(c: Config, s: State, events: seq<Event>, more: seq<Event>)
    ensures Onward(Run(c, s, events), Run(c, s, events + more))
    decreases |more|
  {
    if more == [] {
      assert events + more == events;
      SameSlots(Run(c, s, events), Run(c, s, events));
    } else {
      var n := |more| - 1;
      RunOnward(c, s, events, more[..n]);
      assert (events + more)[..|events| + n] == events + more[..n] && (events + more)[|events| + n] == more[n];
      var r := Run(c, s, events + more[..n]);
      StepOnward(c, r, more[n]);
      hide Onward, Asked, Step;
      ThenOnward(Run(c, s, events), r, Step(c, r, more[n]));
    }
  }

  // Main result: whatever happens, a server whose turn has passed and that is not being asked is never
  // asked again.
  lemma AskedInOneGo(c: Config, timers: map<Name, nat>, events: seq<Event>, later: seq<Event>, server: nat)
    requires var s := Run(c, Initial(timers), events); server < s.next && !Asked(s, server)
    ensures !Asked(Run(c, Initial(timers), events + later), server)
  {
    RunOnward(c, Initial(timers), events, later);
  }
}
