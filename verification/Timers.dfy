/**
 The timer set (client/src/timer.cpp).  Callbacks may add and cancel timers while a pass over the
 expired ones is under way, the one being served included; its removal is then put off until the
 callback is over.  The object refines a picture in which a cancelled timer is gone at once.

 What a callback does is an arbitrary list of additions and cancellations for each tick of the pass.
 */
module Timers {
  import opened Wrappers

  // The wait that never ends, as a 32-bit number of milliseconds.
  const INFINITE := 0xFFFF_FFFF

  datatype Timer = Timer(name: string, interval: nat, deadline: nat, lastFired: nat, repeating: bool, id: nat)
  datatype Tick = Tick(id: nat, name: string, elapsed: int)
  datatype Op = AddOp(name: string, delay: nat, now: nat, repeating: bool) | CancelOp(name: string)

  // What the outside can see: the live timers in the order of their addition, and the next id.
  datatype Picture = Picture(live: seq<Timer>, nextId: nat)

  // ---------------------------------------------------------------- the picture

  function Without(ts: seq<Timer>, id: nat): seq<Timer> {
    if ts == [] then [] else (if ts[0].id == id then [] else [ts[0]]) + Without(ts[1..], id)
  }

  lemma {:induction false} WithoutMembers(ts: seq<Timer>, id: nat)
    ensures forall t :: t in Without(ts, id) <==> t in ts && t.id != id
  {
    if ts != [] {
      WithoutMembers(ts[1..], id);
    }
  }

  function Find(ts: seq<Timer>, name: string): (r: Option<Timer>)
    ensures r.Some? ==> r.value in ts && r.value.name == name
    ensures r.None? ==> forall t | t in ts :: t.name != name
  {
    if ts == [] then None else if ts[0].name == name then Some(ts[0]) else Find(ts[1..], name)
  }

  function ById(ts: seq<Timer>, id: nat): (r: Option<Timer>)
    ensures r.Some? ==> r.value in ts && r.value.id == id
    ensures r.None? ==> forall t | t in ts :: t.id != id
  {
    if ts == [] then None else if ts[0].id == id then Some(ts[0]) else ById(ts[1..], id)
  }

  // The same timers, this one served at `now`.
  function Served(ts: seq<Timer>, id: nat, now: nat): (r: seq<Timer>)
    ensures |r| == |ts|
    ensures forall i | 0 <= i < |ts| :: r[i] == if ts[i].id == id then Renewed(ts[i], now) else ts[i]
  {
    if ts == [] then []
    else [if ts[0].id == id then Renewed(ts[0], now) else ts[0]] + Served(ts[1..], id, now)
  }

  // The periods missed are not made up for.
  function Renewed(t: Timer, now: nat): Timer {
    t.(lastFired := now, deadline := now + t.interval)
  }

  function Perform(p: Picture, op: Op): Picture {
    match op
    case AddOp(name, delay, now, repeating) =>
      if Find(p.live, name).Some? then p
      else Picture(p.live + [Timer(name, delay, now + delay, now, repeating, p.nextId)], p.nextId + 1)
    case CancelOp(name) =>
      var t := Find(p.live, name);
      if t.None? then p else p.(live := Without(p.live, t.value.id))
  }

  function PerformAll(p: Picture, ops: seq<Op>): Picture
    decreases |ops|
  {
    if ops == [] then p else PerformAll(Perform(p, ops[0]), ops[1..])
  }

  // The timers due at `now`, by id.
  function Due(ts: seq<Timer>, now: nat): (r: seq<nat>)
    ensures forall id :: id in r <==> exists t :: t in ts && t.id == id && t.deadline <= now
  {
    if ts == [] then [] else (if ts[0].deadline <= now then [ts[0].id] else []) + Due(ts[1..], now)
  }

  // The step of a pass before the callback's work.
  function ServedFirst(p: Picture, t: Timer, now: nat): Picture {
    p.(live := if t.repeating then Served(p.live, t.id, now) else Without(p.live, t.id))
  }

  // The picture after the first due timer, `t`, has been served and its callback has run.
  function After(p: Picture, t: Timer, now: nat, ops: seq<Op>): Picture {
    PerformAll(ServedFirst(p, t, now), ops)
  }

  function TickOf(t: Timer, now: nat): Tick {
    Tick(t.id, t.name, now - t.lastFired)
  }

  // One pass: each due timer that is still there is served and its callback's work done.
  function Pass(p: Picture, due: seq<nat>, now: nat, script: nat -> seq<Op>, fired: seq<Tick>): (Picture, seq<Tick>)
    decreases |due|
  {
    if due == [] then (p, fired)
    else
      var t := ById(p.live, due[0]);
      if t.None? then Pass(p, due[1..], now, script, fired)
      else Pass(After(p, t.value, now, script(|fired|)), due[1..], now, script, fired + [TickOf(t.value, now)])
  }

  ghost predicate NamesDiffer(ts: seq<Timer>) {
    forall i, j | 0 <= i < j < |ts| :: ts[i].name != ts[j].name
  }

  ghost predicate IdsRise(ts: seq<Timer>) {
    forall i, j | 0 <= i < j < |ts| :: ts[i].id < ts[j].id
  }

  ghost predicate IdsWithin(ts: seq<Timer>, nextId: nat) {
    nextId > 0 && forall t | t in ts :: 0 < t.id < nextId
  }

  ghost predicate Orderly(p: Picture) {
    NamesDiffer(p.live) && IdsRise(p.live) && IdsWithin(p.live, p.nextId)
  }

  // ---------------------------------------------------------------- every operation keeps the order

  lemma {:induction false} WithoutKeepsIds(ts: seq<Timer>, id: nat)
    requires IdsRise(ts)
    ensures IdsRise(Without(ts, id))
  {
    if ts != [] {
      var rest := Without(ts[1..], id);
      WithoutKeepsIds(ts[1..], id);
      WithoutMembers(ts[1..], id);
      forall j | 0 <= j < |rest|
        ensures ts[0].id < rest[j].id
      {
        assert rest[j] in ts[1..];
      }
    }
  }

  lemma {:induction false} WithoutKeepsNames(ts: seq<Timer>, id: nat)
    requires NamesDiffer(ts)
    ensures NamesDiffer(Without(ts, id))
  {
    if ts != [] {
      var rest := Without(ts[1..], id);
      WithoutKeepsNames(ts[1..], id);
      WithoutMembers(ts[1..], id);
      forall j | 0 <= j < |rest|
        ensures ts[0].name != rest[j].name
      {
        assert rest[j] in ts[1..];
      }
    }
  }

  lemma PerformKeeps(p: Picture, op: Op)
    requires Orderly(p)
    ensures Orderly(Perform(p, op)) && Perform(p, op).nextId >= p.nextId
    ensures forall t | t in Perform(p, op).live :: t in p.live || t.id >= p.nextId
    ensures forall t | t in p.live :: t in Perform(p, op).live || op == CancelOp(t.name)
  {
    match op {
      case AddOp(_, _, _, _) =>
      case CancelOp(name) =>
        var t := Find(p.live, name);
        if t.Some? {
          WithoutMembers(p.live, t.value.id);
          WithoutKeepsIds(p.live, t.value.id);
          WithoutKeepsNames(p.live, t.value.id);
        }
    }
  }

  lemma {:induction false} PerformAllKeeps(p: Picture, ops: seq<Op>)
    requires Orderly(p)
    ensures Orderly(PerformAll(p, ops)) && PerformAll(p, ops).nextId >= p.nextId
    ensures forall t | t in PerformAll(p, ops).live :: t in p.live || t.id >= p.nextId
    ensures forall t | t in p.live :: t in PerformAll(p, ops).live || CancelOp(t.name) in ops
    decreases |ops|
  {
    if ops != [] {
      PerformKeeps(p, ops[0]);
      PerformAllKeeps(Perform(p, ops[0]), ops[1..]);
    }
  }

  lemma ServedKeeps(p: Picture, t: Timer, now: nat)
    requires Orderly(p) && t in p.live
    ensures Orderly(p.(live := Served(p.live, t.id, now)))
  {
    var s := Served(p.live, t.id, now);
    assert forall i | 0 <= i < |s| :: s[i].id == p.live[i].id && s[i].name == p.live[i].name;
    hide Served, Renewed;
  }

  lemma {:induction false} ServedHolds(ts: seq<Timer>, t: Timer, now: nat)
    requires forall x | x in ts && x.id == t.id :: x == t
    ensures forall x | x in ts :: x.id == t.id || x in Served(ts, t.id, now)
    ensures forall x | x in Served(ts, t.id, now) :: (x.id != t.id && x in ts) || (t in ts && x == Renewed(t, now))
  {
    if ts != [] {
      ServedHolds(ts[1..], t, now);
      assert Served(ts, t.id, now) == [if ts[0].id == t.id then Renewed(ts[0], now) else ts[0]] + Served(ts[1..], t.id, now);
      hide Renewed, Served;
    }
  }

  lemma ServeKeeps(p: Picture, t: Timer, now: nat)
    requires Orderly(p) && t in p.live
    ensures Orderly(ServedFirst(p, t, now))
    ensures forall x | x in ServedFirst(p, t, now).live :: x in p.live || (t.repeating && x == Renewed(t, now))
    ensures forall x | x in p.live :: x.id == t.id || x in ServedFirst(p, t, now).live
    ensures forall x | x in ServedFirst(p, t, now).live && x.id == t.id :: t.repeating && x == Renewed(t, now)
  {
    if t.repeating {
      ServedKeeps(p, t, now);
      SameId(p, t);
      ServedHolds(p.live, t, now);
    } else {
      WithoutMembers(p.live, t.id);
      WithoutKeepsIds(p.live, t.id);
      WithoutKeepsNames(p.live, t.id);
    }
  }

  lemma SameId(p: Picture, t: Timer)
    requires Orderly(p) && t in p.live
    ensures forall x | x in p.live && x.id == t.id :: x == t
  {
    var i :| 0 <= i < |p.live| && p.live[i] == t;
    forall x | x in p.live && x.id == t.id
      ensures x == t
    {
      var j :| 0 <= j < |p.live| && p.live[j] == x;
    }
  }

  // ---------------------------------------------------------------- what a pass does

  ghost predicate Rising(ids: seq<nat>) {
    forall i, j | 0 <= i < j < |ids| :: ids[i] < ids[j]
  }

  ghost predicate HasId(ts: seq<Timer>, id: nat) {
    exists t :: t in ts && t.id == id
  }

  lemma AfterKeeps(p: Picture, t: Timer, now: nat, ops: seq<Op>)
    requires Orderly(p) && t in p.live
    ensures var q := After(p, t, now, ops);
            && Orderly(q) && q.nextId >= p.nextId
            && (forall x | x in q.live :: x in p.live || x.id >= p.nextId || (t.repeating && x == Renewed(t, now)))
            && (forall x | x in p.live && x.id != t.id :: x in q.live || CancelOp(x.name) in ops)
            && (forall x | x in q.live && x.id == t.id :: t.repeating && x == Renewed(t, now))
  {
    ServeKeeps(p, t, now);
    PerformAllKeeps(ServedFirst(p, t, now), ops);
    hide PerformAll, Renewed;
    forall x | x in p.live && x.id != t.id ensures x in ServedFirst(p,t,now).live {}
  }

  // From here on the ticks are of these ids, each once and in this order.
  ghost predicate TicksOf(r: seq<Tick>, from: nat, due: seq<nat>) {
    && (forall k | from <= k < |r| :: r[k].id in due)
    && (forall j, k | from <= j < k < |r| :: r[j].id < r[k].id)
  }

  ghost predicate Extends(r: seq<Tick>, fired: seq<Tick>) {
    |r| >= |fired| && r[..|fired|] == fired
  }

  lemma TicksLater(r: seq<Tick>, due: seq<nat>, fired: seq<Tick>)
    requires due != [] && Rising(due) && TicksOf(r, |fired|, due[1..])
    ensures TicksOf(r, |fired|, due)
  {
  }

  lemma TicksNow(r: seq<Tick>, due: seq<nat>, fired: seq<Tick>, tick: Tick)
    requires due != [] && Rising(due) && tick.id == due[0]
    requires Extends(r, fired + [tick]) && TicksOf(r, |fired| + 1, due[1..])
    ensures |fired| < |r| && Extends(r, fired) && TicksOf(r, |fired|, due) && r[|fired|] == tick
  {
    assert r[..|fired|] == r[..|fired| + 1][..|fired|];
    assert r[|fired|] == r[..|fired| + 1][|fired|];
  }

  // A pass serves timers of its list only, each once and in the order of their addition, and keeps
  // the set orderly.
  lemma {:induction false} PassKeeps(p: Picture, due: seq<nat>, now: nat, script: nat -> seq<Op>, fired: seq<Tick>)
    requires Orderly(p) && Rising(due)
    ensures var (q, r) := Pass(p, due, now, script, fired);
            Orderly(q) && q.nextId >= p.nextId && Extends(r, fired) && TicksOf(r, |fired|, due)
    decreases |due|
  {
    if due != [] {
      hide After, Orderly, TicksOf, Extends;
      var t := ById(p.live, due[0]);
      if t.None? {
        PassKeeps(p, due[1..], now, script, fired);
        TicksLater(Pass(p, due, now, script, fired).1, due, fired);
      } else {
        var q := After(p, t.value, now, script(|fired|));
        AfterKeeps(p, t.value, now, script(|fired|));
        PassKeeps(q, due[1..], now, script, fired + [TickOf(t.value, now)]);
        TicksNow(Pass(p, due, now, script, fired).1, due, fired, TickOf(t.value, now));
      }
    } else {
      hide Orderly;
    }
  }

  ghost predicate ServedFrom(r: seq<Tick>, from: nat, t: Timer, now: nat) {
    exists k :: from <= k < |r| && r[k] == TickOf(t, now)
  }

  // A callback that ran before the turn of this timer cancelled its name.
  ghost predicate CancelledFrom(r: seq<Tick>, from: nat, script: nat -> seq<Op>, t: Timer) {
    exists k :: from <= k < |r| && r[k].id < t.id && CancelOp(t.name) in script(k)
  }

  lemma PerformAllCancels(p: Picture, ops: seq<Op>, t: Timer)
    requires Orderly(p) && t in p.live && CancelOp(t.name) in ops
    ensures !HasId(PerformAll(p, ops).live, t.id)
    decreases |ops|
  {
    PerformKeeps(p, ops[0]);
    if ops[0] == CancelOp(t.name) {
      var q := Perform(p, ops[0]);
      FindsTheOne(p, t);
      WithoutMembers(p.live, t.id);
      PerformAllKeeps(q, ops[1..]);
    } else {
      PerformAllCancels(Perform(p, ops[0]), ops[1..], t);
    }
  }

  lemma FindsTheOne(p: Picture, t: Timer)
    requires Orderly(p) && t in p.live
    ensures Find(p.live, t.name) == Some(t) && ById(p.live, t.id) == Some(t)
  {
    SameId(p, t);
    var i :| 0 <= i < |p.live| && p.live[i] == t;
    var f := Find(p.live, t.name).value;
    var j :| 0 <= j < |p.live| && p.live[j] == f;
  }

  ghost predicate NeverServed(r: seq<Tick>, from: nat, id: nat) {
    forall k | from <= k < |r| :: r[k].id != id
  }

  // An id that is gone never comes back, so it is not served.
  lemma {:induction false} GoneIsNotServed(p: Picture, due: seq<nat>, now: nat, script: nat -> seq<Op>, fired: seq<Tick>, id: nat)
    requires Orderly(p) && Rising(due) && !HasId(p.live, id) && id < p.nextId
    ensures var r := Pass(p, due, now, script, fired).1;
            NeverServed(r, |fired|, id)
    decreases |due|
  {
    if due != [] {
      hide After, Orderly, TicksOf, Extends, NeverServed;
      var t := ById(p.live, due[0]);
      if t.None? {
        GoneIsNotServed(p, due[1..], now, script, fired, id);
      } else {
        var q := After(p, t.value, now, script(|fired|));
        var next := fired + [TickOf(t.value, now)];
        AfterKeeps(p, t.value, now, script(|fired|));
        assert t.value.id != id && !HasId(q.live, id);
        hide HasId;
        GoneIsNotServed(q, due[1..], now, script, next, id);
        PassKeeps(q, due[1..], now, script, next);
        var r := Pass(q, due[1..], now, script, next).1;
        TicksNow(r, due, fired, TickOf(t.value, now));
        NeverNow(r, |fired|, id);
      }
    }
  }

  lemma NeverNow(r: seq<Tick>, from: nat, id: nat)
    requires from < |r| && r[from].id != id && NeverServed(r, from + 1, id)
    ensures NeverServed(r, from, id)
  {
  }

  // Main result: a due timer is served in the pass if and only if no callback run before its turn
  // cancelled it.
  lemma {:induction false} ServedUnlessCancelled(p: Picture, due: seq<nat>, now: nat, script: nat -> seq<Op>, fired: seq<Tick>, t: Timer)
    requires Orderly(p) && Rising(due) && t in p.live && t.id in due
    ensures var r := Pass(p, due, now, script, fired).1;
            ServedFrom(r, |fired|, t, now) <==> !CancelledFrom(r, |fired|, script, t)
    decreases |due|
  {
    hide After, Orderly, TicksOf, Extends, ServedFrom, CancelledFrom, NeverServed;
    var first := ById(p.live, due[0]);
    if first.None? {
      ServedUnlessCancelled(p, due[1..], now, script, fired, t);
    } else {
      var ops := script(|fired|);
      var q := After(p, first.value, now, ops);
      var tick := TickOf(first.value, now);
      var next := fired + [tick];
      AfterKeeps(p, first.value, now, ops);
      PassKeeps(q, due[1..], now, script, next);
      var r := Pass(q, due[1..], now, script, next).1;
      TicksNow(r, due, fired, tick);
      if due[0] == t.id {
        FindsTheOne(p, t);
        OwnTurn(r, |fired|, due, script, t, now);
      } else if CancelOp(t.name) in ops {
        CancelledInTurn(p, first.value, now, ops, t);
        IdsBelow(p, t);
        GoneIsNotServed(q, due[1..], now, script, next, t.id);
        GoneForGood(r, |fired|, script, t, now);
      } else {
        ServedUnlessCancelled(q, due[1..], now, script, next, t);
        NotThisTurn(r, |fired|, script, t, now);
      }
    }
  }

  lemma IdsBelow(p: Picture, t: Timer)
    requires Orderly(p) && t in p.live
    ensures t.id < p.nextId
  {
  }

  lemma GoneForGood(r: seq<Tick>, from: nat, script: nat -> seq<Op>, t: Timer, now: nat)
    requires from < |r| && r[from].id < t.id && CancelOp(t.name) in script(from)
    requires NeverServed(r, from + 1, t.id)
    ensures !ServedFrom(r, from, t, now) && CancelledFrom(r, from, script, t)
  {
  }

  lemma NotThisTurn(r: seq<Tick>, from: nat, script: nat -> seq<Op>, t: Timer, now: nat)
    requires from < |r| && r[from].id != t.id && CancelOp(t.name) !in script(from)
    ensures ServedFrom(r, from, t, now) <==> ServedFrom(r, from + 1, t, now)
    ensures CancelledFrom(r, from, script, t) <==> CancelledFrom(r, from + 1, script, t)
  {
  }

  lemma OwnTurn(r: seq<Tick>, from: nat, due: seq<nat>, script: nat -> seq<Op>, t: Timer, now: nat)
    requires from < |r| && r[from] == TickOf(t, now) && due != [] && due[0] == t.id && Rising(due)
    requires TicksOf(r, from, due)
    ensures ServedFrom(r, from, t, now) && !CancelledFrom(r, from, script, t)
  {
  }

  lemma CancelledInTurn(p: Picture, first: Timer, now: nat, ops: seq<Op>, t: Timer)
    requires Orderly(p) && first in p.live && t in p.live && t.id != first.id && CancelOp(t.name) in ops
    ensures !HasId(After(p, first, now, ops).live, t.id)
  {
    ServeKeeps(p, first, now);
    PerformAllCancels(ServedFirst(p, first, now), ops, t);
  }

  // What is left of the timers there were: those that were not due, and periodic ones just served, with a
  // whole period to go.
  lemma {:induction false} PassLeaves(p: Picture, due: seq<nat>, now: nat, script: nat -> seq<Op>, fired: seq<Tick>, x: Timer)
    requires Orderly(p) && Rising(due) && x.id < p.nextId && x in Pass(p, due, now, script, fired).0.live
    ensures (x in p.live && x.id !in due) || exists t :: t in p.live && t.id in due && t.repeating && x == Renewed(t, now)
    decreases |due|
  {
    if due != [] {
      var t := ById(p.live, due[0]);
      if t.None? {
        PassLeaves(p, due[1..], now, script, fired, x);
      } else {
        var q := After(p, t.value, now, script(|fired|));
        AfterKeeps(p, t.value, now, script(|fired|));
        PassLeaves(q, due[1..], now, script, fired + [TickOf(t.value, now)], x);
        hide Pass, After, Orderly;
      }
    }
  }

  lemma {:induction false} DueRises(ts: seq<Timer>, now: nat)
    requires IdsRise(ts)
    ensures Rising(Due(ts, now))
  {
    if ts != [] {
      DueRises(ts[1..], now);
      forall id | id in Due(ts[1..], now)
        ensures ts[0].id < id
      {
        var t :| t in ts[1..] && t.id == id;
      }
      var rest := Due(ts[1..], now);
      assert forall i | 0 <= i < |rest| :: rest[i] in rest;
    }
  }

  // Main result: a pass over an orderly set serves exactly the timers due when it began that no
  // earlier callback cancelled, none that a callback added, and leaves none of the old ones due
  // unless its period is zero.
  lemma PassMeans(p: Picture, now: nat, script: nat -> seq<Op>)
    requires Orderly(p)
    ensures var (q, r) := Pass(p, Due(p.live, now), now, script, []);
            && Orderly(q) && TicksOf(r, 0, Due(p.live, now))
            && (forall t | t in p.live && t.deadline <= now :: ServedFrom(r, 0, t, now) <==> !CancelledFrom(r, 0, script, t))
            && (forall x | x in q.live && x.id < p.nextId :: x.deadline > now || (x.repeating && x.interval == 0))
  {
    var due := Due(p.live, now);
    DueRises(p.live, now);
    PassKeeps(p, due, now, script, []);
    var (q, r) := Pass(p, due, now, script, []);
    forall t | t in p.live && t.deadline <= now
      ensures ServedFrom(r, 0, t, now) <==> !CancelledFrom(r, 0, script, t)
    {
      ServedUnlessCancelled(p, due, now, script, [], t);
    }
    forall x | x in q.live && x.id < p.nextId
      ensures x.deadline > now || (x.repeating && x.interval == 0)
    {
      PassLeaves(p, due, now, script, [], x);
    }
  }

  // ---------------------------------------------------------------- erasing from the list

  lemma {:induction false} WithoutJoin(a: seq<Timer>, b: seq<Timer>, id: nat)
    ensures Without(a + b, id) == Without(a, id) + Without(b, id)
  {
    if a == [] {
      assert a + b == b;
    } else {
      WithoutJoin(a[1..], b, id);
      assert (a + b)[0] == a[0] && (a + b)[1..] == a[1..] + b;
      var h := if a[0].id == id then [] else [a[0]];
      assert Without(a + b, id) == h + (Without(a[1..], id) + Without(b, id));
      assert Without(a, id) == h + Without(a[1..], id);
      hide Without;
    }
  }

  lemma {:induction false} WithoutNothing(ts: seq<Timer>, id: nat)
    requires forall t | t in ts :: t.id != id
    ensures Without(ts, id) == ts
  {
    if ts != [] {
      WithoutNothing(ts[1..], id);
    }
  }

  lemma WithoutHead(ts: seq<Timer>, a: nat, b: nat, h: seq<Timer>)
    requires ts != [] && h == if ts[0].id == a || ts[0].id == b then [] else [ts[0]]
    ensures Without(Without(ts, a), b) == h + Without(Without(ts[1..], a), b)
  {
    var rest := Without(ts[1..], a);
    if ts[0].id != a {
      assert Without(ts, a) == [ts[0]] + rest;
      assert ([ts[0]] + rest)[1..] == rest;
    } else {
      assert Without(ts, a) == rest;
    }
  }

  lemma {:induction false} WithoutSwaps(ts: seq<Timer>, a: nat, b: nat)
    ensures Without(Without(ts, a), b) == Without(Without(ts, b), a)
  {
    if ts != [] {
      WithoutSwaps(ts[1..], a, b);
      var h := if ts[0].id == a || ts[0].id == b then [] else [ts[0]];
      WithoutHead(ts, a, b, h);
      WithoutHead(ts, b, a, h);
    }
  }

  lemma EraseAt(ts: seq<Timer>, i: nat)
    requires IdsRise(ts) && i < |ts|
    ensures ts[..i] + ts[i + 1..] == Without(ts, ts[i].id)
  {
    var id := ts[i].id;
    var a, b, c := ts[..i], ts[i..], ts[i + 1..];
    assert ts == a + b && b[1..] == c && b[0] == ts[i];
    WithoutJoin(a, b, id);
    assert Without(b, id) == Without(c, id);
    assert forall t | t in a :: t.id != id;
    assert forall t | t in c :: t.id != id;
    hide Without, IdsRise;
    WithoutNothing(a, id);
    WithoutNothing(c, id);
  }

  lemma StillThere(ts: seq<Timer>, t: Timer)
    ensures forall id | HasId(ts, id) :: HasId(ts + [t], id)
  {
    forall id | HasId(ts, id)
      ensures HasId(ts + [t], id)
    {
      var x :| x in ts && x.id == id;
      assert x in ts + [t];
    }
  }

  lemma ServeAt(ts: seq<Timer>, i: nat, now: nat)
    requires IdsRise(ts) && i < |ts|
    ensures ts[i := Renewed(ts[i], now)] == Served(ts, ts[i].id, now)
  {
  }

  // ---------------------------------------------------------------- the wait

  // How long to wait for a deadline: nothing if it is here, and never for ever by accident.
  function NextTimeout(now: nat, deadline: Option<nat>): (wait: nat)
    ensures wait <= INFINITE && (wait == INFINITE <==> deadline.None?)
    ensures deadline.Some? ==> (wait == 0 <==> deadline.value <= now) && (wait > 0 ==> now + wait <= deadline.value)
  {
    if deadline.None? then INFINITE
    else if deadline.value <= now then 0
    else
      var remaining := deadline.value - now;
      if remaining < INFINITE - 1 then remaining else INFINITE - 1
  }

  // ---------------------------------------------------------------- the object

  class TimerSet {
    var timers: seq<Timer>
    var nextId: nat
    var firing: nat
    var cancelPending: bool

    // The timer whose cancellation waits for its callback to end is not there any more.
    function View(): Picture
      reads this
    {
      Picture(if cancelPending then Without(timers, firing) else timers, nextId)
    }

    ghost predicate Valid()
      reads this
    {
      && IdsRise(timers) && IdsWithin(timers, nextId) && NamesDiffer(View().live)
      && (cancelPending ==> HasId(timers, firing)) && firing < nextId
    }

    lemma ViewIsOrderly()
      requires Valid()
      ensures Orderly(View())
    {
      if cancelPending {
        WithoutMembers(timers, firing);
        WithoutKeepsIds(timers, firing);
      }
    }

    constructor ()
      ensures Valid() && View() == Picture([], 1) && firing == 0 && !cancelPending
    {
      timers, nextId, firing, cancelPending := [], 1, 0, false;
    }

    // Where the live timer of this name is.
    method Lookup(name: string) returns (at: Option<nat>)
      requires Valid()
      ensures at.Some? ==> at.value < |timers| && Find(View().live, name) == Some(timers[at.value])
                           && !(cancelPending && timers[at.value].id == firing)
      ensures at.None? ==> Find(View().live, name).None?
    {
      ViewIsOrderly();
      WithoutMembers(timers, firing);
      for i := 0 to |timers|
        invariant forall k | 0 <= k < i && timers[k].name == name :: cancelPending && timers[k].id == firing
      {
        if timers[i].name == name && !(cancelPending && timers[i].id == firing) {
          FindsTheOne(View(), timers[i]);
          return Some(i);
        }
      }
      return None;
    }

    method Add(name: string, delay: nat, now: nat, repeating: bool) returns (added: bool)
      requires Valid()
      modifies this`timers, this`nextId
      ensures Valid() && View() == Perform(old(View()), AddOp(name, delay, now, repeating))
      ensures added <==> Find(old(View()).live, name).None?
      ensures forall id | HasId(old(timers), id) :: HasId(timers, id)
    {
      var at := Lookup(name);
      if at.Some? {
        return false;
      }
      ViewIsOrderly();
      PerformKeeps(View(), AddOp(name, delay, now, repeating));
      hide Without, HasId, IdsRise, IdsWithin, NamesDiffer, Find;
      AddLast(Timer(name, delay, now + delay, now, repeating, nextId));
      return true;
    }

    method AddLast(t: Timer)
      requires Valid() && t.id == nextId
      requires NamesDiffer(View().live + [t])
      modifies this`timers, this`nextId
      ensures Valid() && View() == Picture(old(View()).live + [t], old(nextId) + 1)
      ensures forall id | HasId(old(timers), id) :: HasId(timers, id)
    {
      WithoutJoin(timers, [t], firing);
      assert Without([t], firing) == [t];
      ghost var was := timers;
      timers := timers + [t];
      nextId := nextId + 1;
      assert View().live == old(View()).live + [t];
      StillThere(was, t);
      hide NamesDiffer, Without, HasId;
    }

    method MarkCancelled(t: Timer)
      requires Valid() && !cancelPending && t in timers && t.id == firing
      modifies this`cancelPending
      ensures Valid() && View() == old(View()).(live := Without(old(View()).live, t.id))
    {
      WithoutKeepsNames(timers, firing);
      hide Without, IdsRise, NamesDiffer;
      cancelPending := true;
    }

    method Erase(at: nat)
      requires Valid() && at < |timers| && timers[at].id != firing
      modifies this`timers
      ensures Valid() && View() == old(View()).(live := Without(old(View()).live, old(timers[at]).id))
      ensures HasId(old(timers), firing) ==> HasId(timers, firing)
      ensures forall t | t in timers :: t in old(timers) && t.id != old(timers[at]).id
    {
      ViewIsOrderly();
      ghost var id := timers[at].id;
      EraseAt(timers, at);
      WithoutSwaps(timers, firing, id);
      WithoutKeepsIds(timers, id);
      WithoutMembers(timers, id);
      WithoutKeepsNames(View().live, id);
      hide Without, IdsRise, NamesDiffer;
      timers := timers[..at] + timers[at + 1..];
    }

    // The timer being served is only marked.
    method Cancel(name: string) returns (had: bool)
      requires Valid()
      modifies this`timers, this`cancelPending
      ensures Valid() && View() == Perform(old(View()), CancelOp(name))
      ensures had <==> Find(old(View()).live, name).Some?
      ensures HasId(old(timers), firing) ==> HasId(timers, firing)
    {
      var at := Lookup(name);
      if at.None? {
        return false;
      }
      var t := timers[at.value];
      if t.id == firing {
        MarkCancelled(t);
      } else {
        Erase(at.value);
      }
      return true;
    }

    // What one callback does.
    method Callback(ops: seq<Op>)
      requires Valid()
      modifies this`timers, this`nextId, this`cancelPending
      ensures Valid() && View() == PerformAll(old(View()), ops)
      ensures HasId(old(timers), firing) ==> HasId(timers, firing)
    {
      hide Valid, Perform, HasId;
      var k := 0;
      while k < |ops|
        invariant 0 <= k <= |ops| && Valid()
        invariant PerformAll(View(), ops[k..]) == PerformAll(old(View()), ops)
        invariant HasId(old(timers), firing) ==> HasId(timers, firing)
      {
        assert ops[k..][1..] == ops[k + 1..] && ops[k..][0] == ops[k];
        match ops[k] {
          case AddOp(name, delay, now, repeating) => var _ := Add(name, delay, now, repeating);
          case CancelOp(name) => var _ := Cancel(name);
        }
        k := k + 1;
      }
    }

    method Locate(id: nat) returns (at: Option<nat>)
      requires Valid()
      ensures at.Some? ==> at.value < |timers| && ById(timers, id) == Some(timers[at.value])
      ensures at.None? ==> ById(timers, id).None?
    {
      for i := 0 to |timers|
        invariant forall k | 0 <= k < i :: timers[k].id != id
      {
        if timers[i].id == id {
          assert timers[i] in timers;
          return Some(i);
        }
      }
      return None;
    }

    // A timer that is not periodic is gone before its callback runs.
    method ServeOnce(at: nat, now: nat, ops: seq<Op>)
      requires Valid() && firing == 0 && !cancelPending && at < |timers| && !timers[at].repeating
      modifies this
      ensures Valid() && firing == 0 && !cancelPending
      ensures View() == After(old(View()), old(timers[at]), now, ops)
    {
      hide Orderly, NamesDiffer, IdsRise, Without, PerformAll;
      Erase(at);
      Callback(ops);
      assert forall t | t in timers :: t.id != 0;
    }

    // A periodic one stays while its callback runs.
    method ServePeriodic(at: nat, now: nat, ops: seq<Op>)
      requires Valid() && firing == 0 && !cancelPending && at < |timers| && timers[at].repeating
      modifies this
      ensures Valid() && firing == 0 && !cancelPending
      ensures View() == After(old(View()), old(timers[at]), now, ops)
    {
      hide PerformAll;
      Mark(at, now);
      Callback(ops);
      EndCallback();
    }

    method Mark(at: nat, now: nat)
      requires Valid() && firing == 0 && !cancelPending && at < |timers|
      modifies this`timers, this`firing
      ensures Valid() && firing == old(timers[at]).id && HasId(timers, firing)
      ensures View() == old(View()).(live := Served(old(View()).live, old(timers[at]).id, now))
    {
      var t := timers[at];
      ViewIsOrderly();
      ServedKeeps(View(), t, now);
      ServeAt(timers, at, now);
      hide Orderly;
      timers := timers[at := Renewed(t, now)];
      assert timers[at] in timers;
      firing := t.id;
    }

    method EndCallback()
      requires Valid() && HasId(timers, firing)
      modifies this`timers, this`firing, this`cancelPending
      ensures Valid() && firing == 0 && !cancelPending && View() == old(View())
    {
      ViewIsOrderly();
      if cancelPending {
        var i := Locate(firing);
        EraseAt(timers, i.value);
        WithoutMembers(timers, firing);
        hide Without, IdsRise, NamesDiffer;
        timers := timers[..i.value] + timers[i.value + 1..];
      }
      firing := 0;
      cancelPending := false;
    }

    method Expired(now: nat) returns (due: seq<nat>)
      ensures due == Due(timers, now)
    {
      due := [];
      for i := 0 to |timers|
        invariant due + Due(timers[i..], now) == Due(timers, now)
      {
        assert timers[i..][1..] == timers[i + 1..];
        if timers[i].deadline <= now {
          due := due + [timers[i].id];
        }
      }
    }

    // The timers to serve are chosen before any callback runs.
    method RunExpired(now: nat, script: nat -> seq<Op>) returns (fired: seq<Tick>)
      requires Valid() && firing == 0 && !cancelPending
      modifies this
      ensures Valid() && firing == 0 && !cancelPending
      ensures (View(), fired) == Pass(old(View()), Due(old(View()).live, now), now, script, [])
    {
      hide Valid, After, Due;
      var due := Expired(now);
      fired := [];
      var k := 0;
      while k < |due|
        invariant 0 <= k <= |due| && Valid() && firing == 0 && !cancelPending
        invariant Pass(View(), due[k..], now, script, fired) == Pass(old(View()), due, now, script, [])
      {
        assert due[k..][1..] == due[k + 1..] && due[k..][0] == due[k];
        var at := Locate(due[k]);
        if at.Some? {
          var t := timers[at.value];
          if t.repeating {
            ServePeriodic(at.value, now, script(|fired|));
          } else {
            ServeOnce(at.value, now, script(|fired|));
          }
          fired := fired + [TickOf(t, now)];
        }
        k := k + 1;
      }
    }

    method Earliest() returns (earliest: Option<nat>)
      requires Valid()
      ensures earliest.None? ==> View().live == []
      ensures earliest.Some? ==> (exists t :: t in View().live && t.deadline == earliest.value)
                                 && forall t | t in View().live :: earliest.value <= t.deadline
    {
      earliest := None;
      WithoutMembers(timers, firing);
      var at := 0;
      hide Valid, Without;
      for i := 0 to |timers|
        invariant earliest.None? ==> forall k | 0 <= k < i :: !Alive(timers[k])
        invariant earliest.Some? ==> at < |timers| && Alive(timers[at]) && timers[at].deadline == earliest.value
        invariant earliest.Some? ==> forall k | 0 <= k < i && Alive(timers[k]) :: earliest.value <= timers[k].deadline
      {
        if Alive(timers[i]) && (earliest.None? || timers[i].deadline < earliest.value) {
          earliest := Some(timers[i].deadline);
          at := i;
        }
      }
      ghost var live := View().live;
      assert forall t :: t in live <==> t in timers && Alive(t);
      assert live != [] ==> live[0] in live;
      assert earliest.Some? ==> timers[at] in live;
    }

    // Not waiting for the end of its callback to be gone.
    predicate Alive(t: Timer)
      reads this
    {
      !(cancelPending && t.id == firing)
    }

    // Main result: the wait is no wait exactly when some timer is due.
    method Wait(now: nat) returns (wait: nat)
      requires Valid()
      ensures wait == 0 <==> Due(View().live, now) != []
      ensures wait == INFINITE <==> View().live == []
      ensures wait < INFINITE ==> forall t | t in View().live :: wait == 0 || now + wait <= t.deadline
    {
      var earliest := Earliest();
      wait := NextTimeout(now, earliest);
      assert Due(View().live, now) != [] ==> Due(View().live, now)[0] in Due(View().live, now);
      if earliest.Some? && earliest.value <= now {
        var t :| t in View().live && t.deadline == earliest.value;
        assert t.id in Due(View().live, now);
      }
    }
  }
}
