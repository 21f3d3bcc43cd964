/**
 The STUN stage as the object of client/src/network/stun_client.cpp: its slots are filled and
 freed in place, each call proved against the function of StunSpec on the value View().
 */
module Stun {
  import opened Wrappers
  import opened StunSpec

  class StunClient {
    const c: Config
    const slots: array<Slot>
    var phase: Phase
    var next: nat
    var mappings: seq<Mapping>
    var resolved: seq<Tx>
    var timers: map<Name, nat>
    var sends: seq<nat>
    var draws: nat
    var dropped: nat

    function View(): State
      reads this, slots
    {
      State(phase, slots[..], next, mappings, resolved, timers, sends, draws, dropped)
    }

    constructor (config: Config, shared: map<Name, nat>)
      ensures c == config && fresh(slots) && View() == Initial(shared)
    {
      c := config;
      slots := new Slot[2](_ => Slot(false, 0, 0, 0));
      phase, next, mappings, resolved, timers, sends, draws, dropped := Idle, 0, [], [], shared, [], 0, 0;
      new;
      assert slots[..] == [Slot(false, 0, 0, 0), Slot(false, 0, 0, 0)];
    }

    method CountInFlight() returns (count: nat)
      ensures count == InFlight(slots[..])
    {
      count := 0;
      for i := 0 to slots.Length
        invariant count + InFlight(slots[i..]) == InFlight(slots[..])
      {
        assert slots[i..][1..] == slots[i + 1..];
        if slots[i].active {
          count := count + 1;
        }
      }
    }

    method SlotOfServer(server: nat) returns (found: Option<nat>)
      ensures found == FindServer(slots[..], server, 0)
    {
      for i := 0 to slots.Length
        invariant FindServer(slots[..], server, i) == FindServer(slots[..], server, 0)
      {
        if slots[i].active && slots[i].server == server {
          return Some(i);
        }
      }
      return None;
    }

    method SlotOfId(id: Tx) returns (found: Option<nat>)
      ensures found == FindId(slots[..], id, 0)
    {
      for i := 0 to slots.Length
        invariant FindId(slots[..], id, i) == FindId(slots[..], id, 0)
      {
        if slots[i].active && slots[i].id == id {
          return Some(i);
        }
      }
      return None;
    }

    method FindFreeSlot() returns (found: Option<nat>)
      ensures found == FreeSlot(slots[..], 0)
    {
      for i := 0 to slots.Length
        invariant FreeSlot(slots[..], i) == FreeSlot(slots[..], 0)
      {
        if !slots[i].active {
          return Some(i);
        }
      }
      return None;
    }

    method Arm(name: Name, deadline: nat)
      modifies `timers
      ensures timers == AddOnce(old(timers), name, deadline)
    {
      if name !in timers {
        timers := timers[name := deadline];
      }
    }

    method BeginQueryIn(k: nat, server: nat, now: nat) returns (ok: bool)
      requires k < slots.Length
      modifies this, slots
      ensures (View(), ok) == BeginQuery(c, old(View()), k, server, now)
    {
      var id := c.draw(draws);
      draws := draws + 1;
      if id.None? {
        return false;
      }
      slots[k] := Slot(true, server, id.value, 1);
      sends := sends + [server];
      Arm(Retry(server), now + RetryInterval(1));
      Arm(Deadline(server), now + DEADLINE);
      return true;
    }

    method ReleaseSlot(k: nat)
      requires k < slots.Length
      modifies `timers, `resolved, slots
      ensures View() == Release(old(View()), k)
    {
      timers := timers - {Retry(slots[k].server)};
      timers := timers - {Deadline(slots[k].server)};
      resolved := resolved + [slots[k].id];
      slots[k] := slots[k].(active := false, sent := 0);
    }

    method ReleaseActive()
      modifies `timers, `resolved, slots
      ensures View() == ReleaseAll(old(View()), 0)
    {
      for i := 0 to slots.Length
        invariant ReleaseAll(View(), i) == ReleaseAll(old(View()), 0)
        modifies `timers, `resolved, slots
      {
        if slots[i].active {
          ReleaseSlot(i);
        }
      }
    }

    method GiveUp()
      modifies this, slots
      ensures View() == FailStage(old(View()))
    {
      ReleaseActive();
      phase := Failed;
    }

    method RefillSlots(now: nat)
      modifies this, slots
      ensures View() == Refill(c, old(View()), now)
    {
      hide BeginQuery, FreeSlot, InFlight, ReleaseAll;
      if phase == Succeeded || phase == Failed {
        return;
      }
      var flying := CountInFlight();
      var free := FindFreeSlot();
      while |mappings| < REQUIRED && flying < CONCURRENCY && next < c.servers && free.Some?
        invariant FillSlots(c, View(), now) == FillSlots(c, old(View()), now)
        invariant flying == InFlight(slots[..]) && free == FreeSlot(slots[..], 0)
        invariant free.Some? ==> free.value < slots.Length
        decreases c.servers - next
      {
        var index := next;
        next := next + 1;
        ghost var asked := View();
        var ok := BeginQueryIn(free.value, index, now);
        NextStays(c, asked, free.value, index, now);
        if !ok {
          GiveUp();
          return;
        }
        flying := CountInFlight();
        free := FindFreeSlot();
      }
      if |mappings| >= REQUIRED {
        phase := Succeeded;
        ReleaseActive();
        return;
      }
      if flying == 0 {
        GiveUp();
        return;
      }
      phase := Running;
    }

    method StartStage(now: nat) returns (running: bool)
      modifies this, slots
      ensures View() == Start(c, old(View()), now)
      ensures running <==> phase == Running
    {
      hide Refill, FailStage;
      if phase != Idle {
        return phase == Running;
      }
      if c.servers < REQUIRED {
        GiveUp();
        return phase == Running;
      }
      RefillSlots(now);
      return phase == Running;
    }

    // The timer has already left the set.
    method OnTimerName(name: Name, now: nat)
      modifies this, slots
      ensures View() == OnTimer(c, old(View()), name, now)
    {
      hide Refill, Release, AddOnce;
      if phase == Succeeded || phase == Failed || name.Other? {
        return;
      }
      var k := SlotOfServer(name.server);
      if k.None? {
        return;
      }
      if name.Deadline? {
        ReleaseSlot(k.value);
        RefillSlots(now);
        return;
      }
      var slot := slots[k.value];
      if slot.sent >= MAX_SENDS {
        return;
      }
      sends := sends + [slot.server];
      slots[k.value] := slot.(sent := slot.sent + 1);
      if slot.sent + 1 < MAX_SENDS {
        Arm(name, now + RetryInterval(slot.sent + 1));
      }
    }

    method OnDatagramIn(d: Datagram, now: nat)
      modifies this, slots
      ensures View() == OnDatagram(c, old(View()), d, now)
    {
      hide Refill, Release;
      if d.NoId? {
        dropped := dropped + 1;
        return;
      }
      for i := 0 to |resolved|
        invariant d.id !in resolved[..i]
        modifies {}
      {
        if resolved[i] == d.id {
          return;
        }
      }
      assert resolved[..|resolved|] == resolved;
      var k := SlotOfId(d.id);
      if k.None? || d.verdict.Malformed? {
        dropped := dropped + 1;
        return;
      }
      if d.verdict.Mapped? {
        mappings := mappings + [Mapping(slots[k.value].server, d.verdict.mapped)];
      }
      ReleaseSlot(k.value);
      RefillSlots(now);
    }
  }

  lemma NextStays(c: Config, s: State, k: nat, server: nat, now: nat)
    requires k < |s.slots|
    ensures BeginQuery(c, s, k, server, now).0.next == s.next
    ensures |BeginQuery(c, s, k, server, now).0.slots| == |s.slots|
    ensures BeginQuery(c, s, k, server, now).0.mappings == s.mappings
    ensures BeginQuery(c, s, k, server, now).0.phase == s.phase
  {
  }
}
