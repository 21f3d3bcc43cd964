/**
 The STUN stage (client/src/network/stun_client.cpp) as functions on a value: at most two servers
 at a time are asked, each with retries up to its own deadline, until two of them have answered.

 The timer set is shared with others; it is a map from names to deadlines.  Every request put on
 the wire is noted in sends.  Draws of transaction identifiers are an arbitrary function.
 */
module StunSpec {
  import opened Wrappers

  const CONCURRENCY := 2
  const REQUIRED := 2
  const DEADLINE := 5000
  const MAX_SENDS := 4

  type Tx = nat

  datatype Name = Retry(server: nat) | Deadline(server: nat) | Other(id: nat)

  datatype Phase = Idle | Running | Succeeded | Failed

  datatype Slot = Slot(active: bool, server: nat, id: Tx, sent: nat)

  datatype Mapping = Mapping(server: nat, mapped: Endpoint)

  datatype Verdict = Malformed | ErrorResponse | Mapped(mapped: Endpoint)

  // A datagram without a transaction identifier, or one with it and what the parser says of the rest.
  datatype Datagram = NoId | Answer(id: Tx, verdict: Verdict)

  // servers is the number of usable servers in the list.
  datatype Config = Config(servers: nat, draw: nat -> Option<Tx>)

  datatype State = State(
    phase: Phase, slots: seq<Slot>, next: nat, mappings: seq<Mapping>, resolved: seq<Tx>,
    timers: map<Name, nat>, sends: seq<nat>, draws: nat, dropped: nat)

  function Initial(timers: map<Name, nat>): State {
    State(Idle, [Slot(false, 0, 0, 0), Slot(false, 0, 0, 0)], 0, [], [], timers, [], 0, 0)
  }

  function RetryInterval(sent: nat): nat {
    if sent == 1 then 500 else if sent == 2 then 1000 else 2000
  }

  function StageCap(servers: nat): nat {
    DEADLINE * ((servers + CONCURRENCY - 1) / CONCURRENCY)
  }

  predicate Finished(s: State) {
    s.phase == Succeeded || s.phase == Failed
  }

  function InFlight(slots: seq<Slot>): nat {
    if slots == [] then 0 else (if slots[0].active then 1 else 0) + InFlight(slots[1..])
  }

  function FindServer(slots: seq<Slot>, server: nat, i: nat): (r: Option<nat>)
    requires i <= |slots|
    ensures r.Some? ==> i <= r.value < |slots| && slots[r.value].active && slots[r.value].server == server
    ensures r.None? ==> forall k | i <= k < |slots| :: !(slots[k].active && slots[k].server == server)
    decreases |slots| - i
  {
    if i == |slots| then None
    else if slots[i].active && slots[i].server == server then Some(i)
    else FindServer(slots, server, i + 1)
  }

  function FindId(slots: seq<Slot>, id: Tx, i: nat): (r: Option<nat>)
    requires i <= |slots|
    ensures r.Some? ==> i <= r.value < |slots| && slots[r.value].active && slots[r.value].id == id
    ensures r.None? ==> forall k | i <= k < |slots| :: !(slots[k].active && slots[k].id == id)
    decreases |slots| - i
  {
    if i == |slots| then None
    else if slots[i].active && slots[i].id == id then Some(i)
    else FindId(slots, id, i + 1)
  }

  function FreeSlot(slots: seq<Slot>, i: nat): (r: Option<nat>)
    requires i <= |slots|
    ensures r.Some? ==> i <= r.value < |slots| && !slots[r.value].active
    ensures r.None? ==> forall k | i <= k < |slots| :: slots[k].active
    decreases |slots| - i
  {
    if i == |slots| then None
    else if !slots[i].active then Some(i)
    else FreeSlot(slots, i + 1)
  }

  // A name already in the set is not overwritten.
  function AddOnce(timers: map<Name, nat>, name: Name, deadline: nat): map<Name, nat> {
    if name in timers then timers else timers[name := deadline]
  }

  function BeginQuery(c: Config, s: State, k: nat, server: nat, now: nat): (State, bool)
    requires k < |s.slots|
  {
    var id := c.draw(s.draws);
    var s1 := s.(draws := s.draws + 1);
    if id.None? then (s1, false)
    else
      (s1.(slots := s1.slots[k := Slot(true, server, id.value, 1)], sends := s1.sends + [server],
           timers := AddOnce(AddOnce(s1.timers, Retry(server), now + RetryInterval(1)), Deadline(server), now + DEADLINE)),
       true)
  }

  function Release(s: State, k: nat): State
    requires k < |s.slots|
  {
    var slot := s.slots[k];
    s.(timers := s.timers - {Retry(slot.server)} - {Deadline(slot.server)}, resolved := s.resolved + [slot.id],
       slots := s.slots[k := slot.(active := false, sent := 0)])
  }

  function ReleaseAll(s: State, k: nat): (r: State)
    requires k <= |s.slots|
    ensures |r.slots| == |s.slots|
    decreases |s.slots| - k
  {
    if k == |s.slots| then s
    else ReleaseAll(if s.slots[k].active then Release(s, k) else s, k + 1)
  }

  function FailStage(s: State): State {
    ReleaseAll(s, 0).(phase := Failed)
  }

  predicate MoreToAsk(c: Config, s: State) {
    |s.mappings| < REQUIRED && InFlight(s.slots) < CONCURRENCY && s.next < c.servers
  }

  // Keeps two queries in flight while servers are left; false when no identifier could be drawn.
  function FillSlots(c: Config, s: State, now: nat): (State, bool)
    decreases c.servers - s.next
  {
    var free := FreeSlot(s.slots, 0);
    if !MoreToAsk(c, s) || free.None? then (s, true)
    else
      var (s1, ok) := BeginQuery(c, s.(next := s.next + 1), free.value, s.next, now);
      if ok then FillSlots(c, s1, now) else (s1, false)
  }

  function Refill(c: Config, s: State, now: nat): State {
    if Finished(s) then s
    else
      var (s1, ok) := FillSlots(c, s, now);
      if !ok then FailStage(s1)
      else if |s1.mappings| >= REQUIRED then ReleaseAll(s1.(phase := Succeeded), 0)
      else if InFlight(s1.slots) == 0 then FailStage(s1)
      else s1.(phase := Running)
  }

  function Start(c: Config, s: State, now: nat): State {
    if s.phase != Idle then s
    else if c.servers < REQUIRED then FailStage(s)
    else Refill(c, s, now)
  }

  // The timer has already left the set.
  function OnTimer(c: Config, s: State, name: Name, now: nat): State {
    if Finished(s) || name.Other? then s
    else
      var k := FindServer(s.slots, name.server, 0);
      if k.None? then s
      else if name.Deadline? then Refill(c, Release(s, k.value), now)
      else
        var slot := s.slots[k.value];
        if slot.sent >= MAX_SENDS then s
        else
          var sent := slot.sent + 1;
          s.(slots := s.slots[k.value := slot.(sent := sent)], sends := s.sends + [slot.server],
             timers := if sent < MAX_SENDS then AddOnce(s.timers, name, now + RetryInterval(sent)) else s.timers)
  }

  function OnDatagram(c: Config, s: State, d: Datagram, now: nat): State {
    if d.NoId? then s.(dropped := s.dropped + 1)
    else if d.id in s.resolved then s
    else
      var k := FindId(s.slots, d.id, 0);
      if k.None? || d.verdict.Malformed? then s.(dropped := s.dropped + 1)
      else
        var s1 := if d.verdict.Mapped? then
                    s.(mappings := s.mappings + [Mapping(s.slots[k.value].server, d.verdict.mapped)])
                  else s;
        Refill(c, Release(s1, k.value), now)
  }

  // ---------------------------------------------------------------- runs

  // Add and Cancel are other owners of the timer set at work.
  datatype Event =
    | Begin(now: nat)
    | Tick(name: Name, now: nat)
    | Receive(datagram: Datagram, now: nat)
    | Add(id: nat, deadline: nat, now: nat)
    | Cancel(id: nat, now: nat)

  // A timer that expires leaves the set and then runs.
  function Step(c: Config, s: State, e: Event): State {
    match e
    case Begin(now) => Start(c, s, now)
    case Tick(name, now) => if name in s.timers then OnTimer(c, s.(timers := s.timers - {name}), name, now) else s
    case Receive(d, now) => OnDatagram(c, s, d, now)
    case Add(id, deadline, _) => s.(timers := AddOnce(s.timers, Other(id), deadline))
    case Cancel(id, _) => s.(timers := s.timers - {Other(id)})
  }

  // The loop delivers timers at their deadlines: nothing happens later than a timer of the stage
  // that is still armed, and a timer of the stage runs when it is due.
  ghost predicate OnTime(s: State, e: Event) {
    && (forall name | name in s.timers && !name.Other? :: e.now <= s.timers[name])
    && (e.Tick? && e.name in s.timers && !e.name.Other? ==> e.now == s.timers[e.name])
  }

  // The stage starts first; the clock does not go back.
  ghost predicate Prompt(c: Config, s: State, events: seq<Event>) {
    events == [] ||
    var n := |events| - 1;
    && Prompt(c, s, events[..n])
    && OnTime(Run(c, s, events[..n]), events[n])
    && (n == 0 ==> events[n].Begin?)
    && (n > 0 ==> events[n - 1].now <= events[n].now)
  }

  function Run(c: Config, s: State, events: seq<Event>): State {
    if events == [] then s else Step(c, Run(c, s, events[..|events| - 1]), events[|events| - 1])
  }
}
