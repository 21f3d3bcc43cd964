/**
 What the STUN stage (client/src/network/stun_client.cpp) makes of the answers it gets: over every run,
 the mappings are those answers that belong to a query in flight, in order, and two of them end the stage.
 */
module StunAnswers {
  import opened Wrappers
  import opened StunSpec

  // ---------------------------------------------------------------- one answer

  predicate IsInFlight(s: State, id: Tx) {
    exists k | 0 <= k < |s.slots| :: s.slots[k].active && s.slots[k].id == id
  }

  // A mapped answer under the identifier of a query in flight, and not of one that has ended.
  predicate IsMapped(s: State, e: Event) {
    && e.Receive? && e.datagram.Answer? && e.datagram.verdict.Mapped?
    && IsInFlight(s, e.datagram.id) && e.datagram.id !in s.resolved
  }

  // The server that query went to; the first, if two queries share an identifier.
  function ServerOf(s: State, id: Tx): nat
    requires IsInFlight(s, id)
  {
    s.slots[FindId(s.slots, id, 0).value].server
  }

  function Gained(s: State, e: Event): seq<Mapping> {
    if IsMapped(s, e) then [Mapping(ServerOf(s, e.datagram.id), e.datagram.verdict.mapped)] else []
  }

  // ---------------------------------------------------------------- which queries are in flight

  predicate NoneInFlight(s: State) {
    forall k | 0 <= k < |s.slots| :: !s.slots[k].active
  }

  // Two mappings, no more, make the stage succeed; a stage that has not begun or has ended asks nobody.
  predicate Decided(s: State) {
    && (s.phase != Running ==> NoneInFlight(s))
    && |s.mappings| <= REQUIRED && (|s.mappings| == REQUIRED <==> s.phase == Succeeded)
  }

  lemma {:induction false} ReleaseAllMeans(s: State, k: nat)
    requires k <= |s.slots|
    ensures var r := ReleaseAll(s, k);
            && r.mappings == s.mappings && r.phase == s.phase
            && (forall j | k <= j < |r.slots| :: !r.slots[j].active)
            && (forall j | 0 <= j < k :: r.slots[j] == s.slots[j])
    decreases |s.slots| - k
  {
    if k < |s.slots| {
      ReleaseAllMeans(if s.slots[k].active then Release(s, k) else s, k + 1);
    }
  }

  lemma {:induction false} FillMeans(c: Config, s: State, now: nat)
    ensures var r := FillSlots(c, s, now).0;
            r.mappings == s.mappings && r.phase == s.phase
    ensures |s.mappings| >= REQUIRED ==> FillSlots(c, s, now) == (s, true)
    decreases c.servers - s.next
  {
    hide BeginQuery, InFlight, FreeSlot;
    var free := FreeSlot(s.slots, 0);
    if MoreToAsk(c, s) && free.Some? {
      var (s1, ok) := BeginQuery(c, s.(next := s.next + 1), free.value, s.next, now);
      BeginFrame(c, s.(next := s.next + 1), free.value, s.next, now);
      if ok {
        FillMeans(c, s1, now);
      }
    }
  }

  lemma BeginFrame(c: Config, s: State, k: nat, server: nat, now: nat)
    requires k < |s.slots|
    ensures var r := BeginQuery(c, s, k, server, now).0;
            && r == s.(draws := s.draws + 1, slots := r.slots, sends := r.sends, timers := r.timers)
            && |r.slots| == |s.slots|
  {
  }

  lemma RefillDecides(c: Config, s: State, now: nat)
    requires |s.mappings| <= REQUIRED && !Finished(s)
    ensures Decided(Refill(c, s, now)) && Refill(c, s, now).mappings == s.mappings
  {
    hide ReleaseAll, FillSlots, InFlight;
    var (s1, ok) := FillSlots(c, s, now);
    FillMeans(c, s, now);
    ReleaseAllMeans(s1, 0);
    ReleaseAllMeans(s1.(phase := Succeeded), 0);
  }

  lemma TimerDecides(c: Config, s: State, name: Name, now: nat)
    requires Decided(s)
    ensures Decided(OnTimer(c, s, name, now)) && OnTimer(c, s, name, now).mappings == s.mappings
  {
    hide Refill, FindServer;
    if !Finished(s) && !name.Other? {
      var k := FindServer(s.slots, name.server, 0);
      if k.Some? && name.Deadline? {
        RefillDecides(c, Release(s, k.value), now);
      }
    }
  }

  lemma FailKeeps(s: State)
    requires Decided(s) && s.phase == Idle
    ensures Decided(FailStage(s)) && FailStage(s).mappings == s.mappings
  {
    ReleaseAllMeans(s, 0);
  }

  lemma StepDecides(c: Config, s: State, e: Event)
    requires Decided(s)
    ensures Decided(Step(c, s, e)) && Step(c, s, e).mappings == s.mappings + Gained(s, e)
  {
    hide Refill, FailStage, OnTimer, Release;
    match e
    case Begin(now) =>
      if s.phase == Idle {
        RefillDecides(c, s, now);
        FailKeeps(s);
      }
    case Tick(name, now) => TimerDecides(c, s.(timers := s.timers - {name}), name, now);
    case Receive(d, now) => AnswerDecides(c, s, d, now);
    case _ =>
  }

  lemma AnswerDecides(c: Config, s: State, d: Datagram, now: nat)
    requires Decided(s)
    ensures var r := OnDatagram(c, s, d, now);
            Decided(r) && r.mappings == s.mappings + Gained(s, Receive(d, now))
  {
    hide Refill, FindId;
    if d.Answer? && d.id !in s.resolved {
      var k := FindId(s.slots, d.id, 0);
      if k.Some? && !d.verdict.Malformed? {
        var s1 := if d.verdict.Mapped? then s.(mappings := s.mappings + Gained(s, Receive(d, now))) else s;
        RefillDecides(c, Release(s1, k.value), now);
      }
    }
  }

  // ---------------------------------------------------------------- every run

  // The mapped answers of the first n events, each seen by the state it met.
  function Answered(c: Config, timers: map<Name, nat>, events: seq<Event>, n: nat): seq<Mapping>
    requires n <= |events|
  {
    if n == 0 then []
    else Answered(c, timers, events, n - 1) + Gained(Run(c, Initial(timers), events[..n - 1]), events[n - 1])
  }

  lemma StepAt(c: Config, s: State, events: seq<Event>, k: nat)
    requires k < |events|
    ensures Run(c, s, events[..k + 1]) == Step(c, Run(c, s, events[..k]), events[k])
  {
    var upto := events[..k + 1];
    assert upto[..k] == events[..k] && upto[k] == events[k];
  }

  // Main result: over every run, whatever servers answer and in whatever order timers fire, the mappings are exactly
  // the mapped answers to queries in flight; and the stage has succeeded exactly when two of them have come.
  lemma {:induction false} MappingsAreAnswers(c: Config, timers: map<Name, nat>, events: seq<Event>, n: nat)
    requires n <= |events|
    ensures var s := Run(c, Initial(timers), events[..n]);
            && s.mappings == Answered(c, timers, events, n)
            && (s.phase == Succeeded <==> |Answered(c, timers, events, n)| == REQUIRED)
            && |Answered(c, timers, events, n)| <= REQUIRED
            && Decided(s)
  {
    if n > 0 {
      MappingsAreAnswers(c, timers, events, n - 1);
      StepAt(c, Initial(timers), events, n - 1);
      StepDecides(c, Run(c, Initial(timers), events[..n - 1]), events[n - 1]);
      hide Step, Run, Gained;
    }
  }

  // ---------------------------------------------------------------- identifiers that do not repeat

  ghost predicate FreshDraws(c: Config) {
    forall i: nat, j: nat | i < j && c.draw(i).Some? :: c.draw(i) != c.draw(j)
  }

  ghost predicate Drawn(c: Config, n: nat, id: Tx) {
    exists i: nat :: i < n && c.draw(i) == Some(id)
  }

  // Queries in flight have identifiers of their own, different from those of the ended ones.
  ghost predicate IdsOk(c: Config, slots: seq<Slot>, resolved: seq<Tx>, draws: nat) {
    && (forall k | 0 <= k < |slots| && slots[k].active :: Drawn(c, draws, slots[k].id) && slots[k].id !in resolved)
    && (forall k, j | 0 <= k < j < |slots| && slots[k].active && slots[j].active :: slots[k].id != slots[j].id)
    && (forall id | id in resolved :: Drawn(c, draws, id))
  }

  lemma DrawnLater(c: Config, n: nat)
    ensures forall id: Tx | Drawn(c, n, id) :: Drawn(c, n + 1, id)
  {
    forall id: Tx | Drawn(c, n, id)
      ensures Drawn(c, n + 1, id)
    {
      var i: nat :| i < n && c.draw(i) == Some(id);
      assert i < n + 1 && c.draw(i) == Some(id);
    }
  }

  lemma BeginIds(c: Config, s: State, k: nat, server: nat, now: nat)
    requires FreshDraws(c) && IdsOk(c, s.slots, s.resolved, s.draws) && k < |s.slots| && !s.slots[k].active
    ensures var r := BeginQuery(c, s, k, server, now).0;
            IdsOk(c, r.slots, r.resolved, r.draws)
  {
    DrawnLater(c, s.draws);
    var id := c.draw(s.draws);
    if id.Some? {
      assert Drawn(c, s.draws + 1, id.value);
      assert !Drawn(c, s.draws, id.value);
    }
    hide Drawn;
  }

  lemma ReleaseIds(c: Config, s: State, k: nat)
    requires IdsOk(c, s.slots, s.resolved, s.draws) && k < |s.slots| && s.slots[k].active
    ensures var r := Release(s, k);
            IdsOk(c, r.slots, r.resolved, r.draws) && r.phase == s.phase && r.mappings == s.mappings
  {
    hide Drawn;
  }

  lemma {:induction false} ReleaseAllIds(c: Config, s: State, k: nat)
    requires IdsOk(c, s.slots, s.resolved, s.draws) && k <= |s.slots|
    ensures var r := ReleaseAll(s, k);
            IdsOk(c, r.slots, r.resolved, r.draws)
    decreases |s.slots| - k
  {
    hide IdsOk;
    if k < |s.slots| {
      if s.slots[k].active {
        ReleaseIds(c, s, k);
      }
      hide Release;
      ReleaseAllIds(c, if s.slots[k].active then Release(s, k) else s, k + 1);
    }
  }

  lemma {:induction false} FillIds(c: Config, s: State, now: nat)
    requires FreshDraws(c) && IdsOk(c, s.slots, s.resolved, s.draws)
    ensures var r := FillSlots(c, s, now).0;
            IdsOk(c, r.slots, r.resolved, r.draws)
    decreases c.servers - s.next
  {
    hide BeginQuery, InFlight, FreeSlot, IdsOk, FreshDraws;
    var free := FreeSlot(s.slots, 0);
    if MoreToAsk(c, s) && free.Some? {
      var (s1, ok) := BeginQuery(c, s.(next := s.next + 1), free.value, s.next, now);
      BeginFrame(c, s.(next := s.next + 1), free.value, s.next, now);
      BeginIds(c, s.(next := s.next + 1), free.value, s.next, now);
      if ok {
        FillIds(c, s1, now);
      }
    }
  }

  lemma RefillIds(c: Config, s: State, now: nat)
    requires FreshDraws(c) && IdsOk(c, s.slots, s.resolved, s.draws)
    ensures var r := Refill(c, s, now);
            IdsOk(c, r.slots, r.resolved, r.draws)
  {
    hide FillSlots, ReleaseAll, InFlight, IdsOk, FreshDraws;
    FillIds(c, s, now);
    var s1 := FillSlots(c, s, now).0;
    ReleaseAllIds(c, s1, 0);
    ReleaseAllIds(c, s1.(phase := Succeeded), 0);
  }

  lemma StepIds(c: Config, s: State, e: Event)
    requires FreshDraws(c) && IdsOk(c, s.slots, s.resolved, s.draws)
    ensures var r := Step(c, s, e);
            IdsOk(c, r.slots, r.resolved, r.draws)
  {
    hide Refill, Release, ReleaseAll, IdsOk, FreshDraws, FindServer, FindId;
    match e
    case Begin(now) =>
      RefillIds(c, s, now);
      ReleaseAllIds(c, s, 0);
    case Tick(name, now) => TimerIds(c, s.(timers := s.timers - {name}), name, now);
    case Receive(d, now) =>
      if d.Answer? {
        var k := FindId(s.slots, d.id, 0);
        if k.Some? {
          var s1 := if d.verdict.Mapped? then s.(mappings := s.mappings + [Mapping(s.slots[k.value].server, d.verdict.mapped)]) else s;
          ReleaseIds(c, s1, k.value);
          RefillIds(c, Release(s1, k.value), now);
        }
      }
    case _ =>
  }

  lemma TimerIds(c: Config, s: State, name: Name, now: nat)
    requires FreshDraws(c) && IdsOk(c, s.slots, s.resolved, s.draws)
    ensures var r := OnTimer(c, s, name, now);
            IdsOk(c, r.slots, r.resolved, r.draws)
  {
    hide Refill, Release, FreshDraws, FindServer, Drawn;
    if !name.Other? {
      var k := FindServer(s.slots, name.server, 0);
      if k.Some? {
        ReleaseIds(c, s, k.value);
        RefillIds(c, Release(s, k.value), now);
      }
    }
  }

  lemma {:induction false} RunIds(c: Config, timers: map<Name, nat>, events: seq<Event>, n: nat)
    requires FreshDraws(c) && n <= |events|
    ensures var s := Run(c, Initial(timers), events[..n]);
            IdsOk(c, s.slots, s.resolved, s.draws)
  {
    if n > 0 {
      RunIds(c, timers, events, n - 1);
      StepAt(c, Initial(timers), events, n - 1);
      hide Step, Run, IdsOk, FreshDraws;
      StepIds(c, Run(c, Initial(timers), events[..n - 1]), events[n - 1]);
    }
  }

  // Main result: where identifiers do not repeat, no answer is lost and none is credited to another server: a mapped
  // answer to any query in flight is recorded as that query's.
  lemma NoAnswerIsLost(c: Config, timers: map<Name, nat>, events: seq<Event>, n: nat, k: nat, mapped: Endpoint, now: nat)
    requires FreshDraws(c) && n <= |events|
    requires var s := Run(c, Initial(timers), events[..n]); k < |s.slots| && s.slots[k].active
    ensures var s := Run(c, Initial(timers), events[..n]);
            OnDatagram(c, s, Answer(s.slots[k].id, Mapped(mapped)), now).mappings == s.mappings + [Mapping(s.slots[k].server, mapped)]
  {
    var s := Run(c, Initial(timers), events[..n]);
    RunIds(c, timers, events, n);
    MappingsAreAnswers(c, timers, events, n);
    hide Run, FreshDraws, OnDatagram, Answered, Drawn;
    AnswerDecides(c, s, Answer(s.slots[k].id, Mapped(mapped)), now);
  }

  // ---------------------------------------------------------------- asking again

  // A query whose retry timer fires is sent once more, and waits longer, until its fourth send.
  lemma RetryAsksAgain(c: Config, s: State, server: nat, now: nat)
    requires Retry(server) in s.timers && !Finished(s)
    requires exists k :: 0 <= k < |s.slots| && s.slots[k].active && s.slots[k].server == server
    ensures var r := Step(c, s, Tick(Retry(server), now));
            var k := FindServer(s.slots, server, 0).value;
            var sent := s.slots[k].sent;
            if sent >= MAX_SENDS then r == s.(timers := s.timers - {Retry(server)})
            else
              && r.sends == s.sends + [server] && r.slots == s.slots[k := s.slots[k].(sent := sent + 1)]
              && r.phase == s.phase && r.mappings == s.mappings && r.next == s.next && r.resolved == s.resolved
              && r.timers == if sent + 1 < MAX_SENDS then s.timers[Retry(server) := now + RetryInterval(sent + 1)]
                             else s.timers - {Retry(server)}
  {
  }

  // A query whose deadline passes is given up: its timers go, its identifier counts as ended.
  lemma DeadlineGivesUp(c: Config, s: State, server: nat, now: nat)
    requires Deadline(server) in s.timers && !Finished(s)
    requires exists k :: 0 <= k < |s.slots| && s.slots[k].active && s.slots[k].server == server
    ensures var k := FindServer(s.slots, server, 0).value;
            var gone := s.(slots := s.slots[k := s.slots[k].(active := false, sent := 0)], resolved := s.resolved + [s.slots[k].id],
                           timers := s.timers - {Retry(server)} - {Deadline(server)});
            Step(c, s, Tick(Deadline(server), now)) == Refill(c, gone, now)
  {
    hide Refill;
    assert s.timers - {Deadline(server)} - {Retry(server)} - {Deadline(server)} == s.timers - {Retry(server)} - {Deadline(server)};
  }
}
