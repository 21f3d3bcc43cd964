/**
 The single-producer single-consumer ring (client/include/sangtachi/spsc_ring.hpp) and the console
 queue of the same design (client/src/console.cpp), as atomic steps of two threads: every load and
 store of an index, every slot access and the drop counter is one step, and steps interleave freely.
 Loads and stores are sequentially consistent.
 */
module Ring {
  import opened Wrappers

  // ---------------------------------------------------------------- the bounded queue it implements

  // What an operation told its caller.
  datatype Outcome<T> = Pushed(value: T) | RefusedFull | Popped(value: T) | FoundEmpty

  // The queue after these operations in this order, or None when one of them could not have happened.
  function Fifo<T(==)>(capacity: nat, log: seq<Outcome<T>>): Option<seq<T>> {
    if log == [] then Some([])
    else
      var before := Fifo(capacity, log[..|log| - 1]);
      if before.None? then None
      else
        var q := before.value;
        match log[|log| - 1]
        case Pushed(v) => if |q| < capacity then Some(q + [v]) else None
        case RefusedFull => if |q| == capacity then Some(q) else None
        case Popped(v) => if q != [] && q[0] == v then Some(q[1..]) else None
        case FoundEmpty => if q == [] then Some(q) else None
  }

  // ---------------------------------------------------------------- the two threads

  // Where the producer is in try_push: what it has loaded so far.
  datatype Producer<T> =
    | PIdle
    | PTail(value: T, tail: nat)
    | PRoom(value: T, tail: nat)
    | PWritten(value: T, next: nat)
    | PRefused

  // Where the consumer is in try_pop.
  datatype Consumer<T> =
    | CIdle
    | CHead(head: nat)
    | CSome(head: nat)
    | CTaken(head: nat, value: T)
    | CCleared(head: nat, value: T)

  // pushed and popped are history: the values put in and taken out so far.  log notes each operation
  // at the step that makes it happen: the store of the index, or the load that finds full or empty.
  datatype State<T> = State(
    slots: seq<T>, head: nat, tail: nat, dropped: nat, producer: Producer<T>, consumer: Consumer<T>,
    pushed: seq<T>, popped: seq<T>, log: seq<Outcome<T>>)

  function Initial<T>(capacity: nat, blank: T): State<T> {
    State(seq(capacity + 1, _ => blank), 0, 0, 0, PIdle, CIdle, [], [], [])
  }

  function After(index: nat, n: nat): nat
    requires n > 0
    ensures After(index, n) < n
  {
    (index + 1) % n
  }

  // The value is what the producer pushes next, used only when it starts.
  function ProducerStep<T>(s: State<T>, value: T): State<T>
    requires |s.slots| > 0
  {
    match s.producer
    case PIdle => s.(producer := PTail(value, s.tail))
    case PTail(v, tail) =>
      if After(tail, |s.slots|) == s.head then s.(producer := PRefused, log := s.log + [RefusedFull])
      else s.(producer := PRoom(v, tail))
    case PRoom(v, tail) =>
      if tail < |s.slots| then
        s.(slots := s.slots[tail := v], producer := PWritten(v, After(tail, |s.slots|)))
      else s
    case PWritten(v, next) =>
      s.(tail := next, producer := PIdle, pushed := s.pushed + [v], log := s.log + [Pushed(v)])
    case PRefused => s.(dropped := s.dropped + 1, producer := PIdle)
  }

  function ConsumerStep<T>(s: State<T>, blank: T): State<T>
    requires |s.slots| > 0
  {
    match s.consumer
    case CIdle => s.(consumer := CHead(s.head))
    case CHead(head) =>
      if head == s.tail then s.(consumer := CIdle, log := s.log + [FoundEmpty]) else s.(consumer := CSome(head))
    case CSome(head) => if head < |s.slots| then s.(consumer := CTaken(head, s.slots[head])) else s
    case CTaken(head, v) =>
      if head < |s.slots| then s.(slots := s.slots[head := blank], consumer := CCleared(head, v)) else s
    case CCleared(head, v) =>
      s.(head := After(head, |s.slots|), consumer := CIdle, popped := s.popped + [v], log := s.log + [Popped(v)])
  }

  datatype Turn<T> = ProducerTurn(value: T) | ConsumerTurn

  ghost function Run<T>(capacity: nat, blank: T, turns: seq<Turn<T>>): (s: State<T>)
    ensures |s.slots| == capacity + 1
  {
    if turns == [] then Initial(capacity, blank)
    else
      var s := Run(capacity, blank, turns[..|turns| - 1]);
      match turns[|turns| - 1]
      case ProducerTurn(v) => ProducerStep(s, v)
      case ConsumerTurn => ConsumerStep(s, blank)
  }

  // ---------------------------------------------------------------- the invariant

  // Slot of the i-th value ever pushed.
  function SlotOf(i: nat, n: nat): nat
    requires n > 0
    ensures SlotOf(i, n) < n
  {
    i % n
  }

  // Values pushed and not popped stand in their slots, but the one a consumer has just cleared.
  ghost predicate Holds<T>(s: State<T>)
    requires |s.slots| > 0 && |s.popped| <= |s.pushed|
  {
    forall i | |s.popped| <= i < |s.pushed| && !(s.consumer.CCleared? && i == |s.popped|) ::
      s.slots[SlotOf(i, |s.slots|)] == s.pushed[i]
  }

  ghost predicate ProducerOk<T>(s: State<T>)
    requires |s.slots| > 0
  {
    match s.producer
    case PIdle => true
    case PTail(_, tail) => tail == s.tail
    case PRoom(_, tail) => tail == s.tail && |s.pushed| - |s.popped| < |s.slots| - 1
    case PWritten(v, next) =>
      && next == After(s.tail, |s.slots|) && |s.pushed| - |s.popped| < |s.slots| - 1
      && s.tail < |s.slots| && s.slots[s.tail] == v
    case PRefused => true
  }

  ghost predicate ConsumerOk<T>(s: State<T>) {
    match s.consumer
    case CIdle => true
    case CHead(head) => head == s.head
    case CSome(head) => head == s.head && |s.popped| < |s.pushed|
    case CTaken(head, v) => head == s.head && |s.popped| < |s.pushed| && v == s.pushed[|s.popped|]
    case CCleared(head, v) => head == s.head && |s.popped| < |s.pushed| && v == s.pushed[|s.popped|]
  }

  function Refusals<T>(log: seq<Outcome<T>>): nat {
    if log == [] then 0 else Refusals(log[..|log| - 1]) + if log[|log| - 1].RefusedFull? then 1 else 0
  }

  ghost predicate Inv<T(!new)>(s: State<T>, capacity: nat) {
    && |s.slots| == capacity + 1
    && |s.popped| <= |s.pushed| <= |s.popped| + capacity
    && s.head == SlotOf(|s.popped|, capacity + 1) && s.tail == SlotOf(|s.pushed|, capacity + 1)
    && s.popped == s.pushed[..|s.popped|]
    && Holds(s) && ProducerOk(s) && ConsumerOk(s)
    && Fifo(capacity, s.log) == Some(s.pushed[|s.popped|..])
    && Refusals(s.log) == s.dropped + if s.producer.PRefused? then 1 else 0
  }

  // ---------------------------------------------------------------- arithmetic of the ring

  lemma SlotsDiffer(a: nat, b: nat, n: nat)
    requires a < b < a + n
    ensures SlotOf(a, n) != SlotOf(b, n)
  {
    if a % n == b % n {
      assert a == n * (a / n) + a % n && b == n * (b / n) + b % n;
      assert b - a == n * (b / n - a / n);
      NoSmallMultiple(b - a, n, b / n - a / n);
    }
  }

  lemma NoSmallMultiple(d: int, n: nat, k: int)
    requires 0 < d < n
    ensures d != n * k
  {
    if k >= 1 {
      assert n * k >= n;
    } else {
      assert n * k <= 0;
    }
  }

  lemma RemainderIs(a: nat, n: nat, q: int, r: nat)
    requires a == n * q + r && r < n
    ensures a % n == r
  {
    assert a == n * (a / n) + a % n;
    assert n * (q - a / n) == a % n - r;
    if a % n > r {
      NoSmallMultiple(a % n - r, n, q - a / n);
    } else if a % n < r {
      assert n * (a / n - q) == r - a % n;
      NoSmallMultiple(r - a % n, n, a / n - q);
    }
  }

  lemma RoundTheRing(x: nat, n: nat)
    requires n > 0
    ensures (x + n) % n == x % n
  {
    assert x == n * (x / n) + x % n;
    RemainderIs(x + n, n, x / n + 1, x % n);
  }

  lemma NextSlot(a: nat, n: nat)
    requires n > 0
    ensures SlotOf(a + 1, n) == After(SlotOf(a, n), n)
  {
    assert a == n * (a / n) + a % n;
    NextRemainder(a, n, a / n, a % n);
    NextRemainder(a % n, n, 0, a % n);
  }

  lemma NextRemainder(a: nat, n: nat, q: int, r: nat)
    requires a == n * q + r && r < n
    ensures (a + 1) % n == if r + 1 < n then r + 1 else 0
  {
    if r + 1 < n {
      RemainderIs(a + 1, n, q, r + 1);
    } else {
      assert a + 1 == n * (q + 1) + 0;
      RemainderIs(a + 1, n, q + 1, 0);
    }
  }

  // head and tail meet exactly when the ring is empty, and are one apart exactly when it is full.
  lemma EmptyAndFull(popped: nat, pushed: nat, capacity: nat)
    requires popped <= pushed <= popped + capacity
    ensures SlotOf(popped, capacity + 1) == SlotOf(pushed, capacity + 1) <==> popped == pushed
    ensures After(SlotOf(pushed, capacity + 1), capacity + 1) == SlotOf(popped, capacity + 1) <==> pushed == popped + capacity
  {
    var n := capacity + 1;
    if popped < pushed {
      SlotsDiffer(popped, pushed, n);
    }
    NextSlot(pushed, n);
    if pushed == popped + capacity {
      RoundTheRing(popped, n);
    } else {
      SlotsDiffer(popped, pushed + 1, n);
    }
  }

  // ---------------------------------------------------------------- steps keep it

  lemma LogGrows<T(!new)>(capacity: nat, log: seq<Outcome<T>>, o: Outcome<T>)
    ensures Fifo(capacity, log).None? ==> Fifo(capacity, log + [o]).None?
    ensures Fifo(capacity, log).Some? ==>
              var q := Fifo(capacity, log).value;
              Fifo(capacity, log + [o]) ==
              match o
              case Pushed(v) => if |q| < capacity then Some(q + [v]) else None
              case RefusedFull => if |q| == capacity then Some(q) else None
              case Popped(v) => if q != [] && q[0] == v then Some(q[1..]) else None
              case FoundEmpty => if q == [] then Some(q) else None
    ensures Refusals(log + [o]) == Refusals(log) + if o.RefusedFull? then 1 else 0
  {
    assert (log + [o])[..|log|] == log;
  }

  // Main result, one step: the producer writes only a slot that holds no unread value.
  lemma WriteSparesUnread<T(!new)>(s: State<T>, capacity: nat, value: T, i: nat)
    requires Inv(s, capacity) && s.producer.PRoom? && |s.popped| <= i < |s.pushed|
    ensures ProducerStep(s, value).slots[SlotOf(i, capacity + 1)] == s.slots[SlotOf(i, capacity + 1)]
  {
    SlotsDiffer(i, |s.pushed|, capacity + 1);
  }

  lemma ProducerKeeps<T(!new)>(s: State<T>, capacity: nat, value: T)
    requires Inv(s, capacity)
    ensures Inv(ProducerStep(s, value), capacity)
  {
    hide SlotOf, After, Fifo, Refusals;
    match s.producer
    case PIdle =>
    case PTail(v, tail) =>
      EmptyAndFull(|s.popped|, |s.pushed|, capacity);
      LogGrows(capacity, s.log, RefusedFull);
    case PRoom(v, tail) => WriteKeeps(s, capacity, value);
    case PWritten(v, next) => PublishKeeps(s, capacity, value);
    case PRefused =>
  }

  lemma WriteKeeps<T(!new)>(s: State<T>, capacity: nat, value: T)
    requires Inv(s, capacity) && s.producer.PRoom?
    ensures Inv(ProducerStep(s, value), capacity)
  {
    hide SlotOf, After, Fifo, Refusals;
    var r := ProducerStep(s, value);
    var n := capacity + 1;
    forall i | |s.popped| <= i < |s.pushed|
      ensures r.slots[SlotOf(i, n)] == s.slots[SlotOf(i, n)]
    {
      WriteSparesUnread(s, capacity, value, i);
    }
  }

  lemma PublishKeeps<T(!new)>(s: State<T>, capacity: nat, value: T)
    requires Inv(s, capacity) && s.producer.PWritten?
    ensures Inv(ProducerStep(s, value), capacity)
  {
    hide SlotOf, After, Fifo, Refusals;
    var r := ProducerStep(s, value);
    LogGrows(capacity, s.log, Pushed(s.producer.value));
    NextSlot(|s.pushed|, capacity + 1);
    assert r.pushed[|r.popped|..] == s.pushed[|s.popped|..] + [s.producer.value];
    assert r.popped == r.pushed[..|r.popped|];
  }

  lemma ConsumerKeeps<T(!new)>(s: State<T>, capacity: nat, blank: T)
    requires Inv(s, capacity)
    ensures Inv(ConsumerStep(s, blank), capacity)
  {
    hide SlotOf, After, Fifo, Refusals;
    match s.consumer
    case CIdle =>
    case CHead(head) =>
      EmptyAndFull(|s.popped|, |s.pushed|, capacity);
      LogGrows(capacity, s.log, FoundEmpty);
      if s.head == s.tail {
        assert s.pushed[|s.popped|..] == [];
      }
    case CSome(head) =>
    case CTaken(head, v) => ClearKeeps(s, capacity, blank);
    case CCleared(head, v) => AdvanceKeeps(s, capacity, blank);
  }

  lemma ClearKeeps<T(!new)>(s: State<T>, capacity: nat, blank: T)
    requires Inv(s, capacity) && s.consumer.CTaken?
    ensures Inv(ConsumerStep(s, blank), capacity)
  {
    hide After, Fifo, Refusals;
    var r := ConsumerStep(s, blank);
    var n := capacity + 1;
    forall i | |s.popped| < i < |s.pushed|
      ensures r.slots[SlotOf(i, n)] == s.slots[SlotOf(i, n)]
    {
      SlotsDiffer(|s.popped|, i, capacity + 1);
    }
    if s.producer.PWritten? {
      SlotsDiffer(|s.popped|, |s.pushed|, capacity + 1);
    }
  }

  lemma AdvanceKeeps<T(!new)>(s: State<T>, capacity: nat, blank: T)
    requires Inv(s, capacity) && s.consumer.CCleared?
    ensures Inv(ConsumerStep(s, blank), capacity)
  {
    hide SlotOf, After, Fifo, Refusals;
    var r := ConsumerStep(s, blank);
    LogGrows(capacity, s.log, Popped(s.consumer.value));
    NextSlot(|s.popped|, capacity + 1);
    assert r.pushed[|r.popped|..] == s.pushed[|s.popped|..][1..];
    assert r.popped == r.pushed[..|r.popped|];
  }

  lemma {:induction false} RunKeeps<T(!new)>(capacity: nat, blank: T, turns: seq<Turn<T>>)
    ensures Inv(Run(capacity, blank, turns), capacity)
  {
    if turns != [] {
      var before := turns[..|turns| - 1];
      RunKeeps(capacity, blank, before);
      match turns[|turns| - 1]
      case ProducerTurn(v) => ProducerKeeps(Run(capacity, blank, before), capacity, v);
      case ConsumerTurn => ConsumerKeeps(Run(capacity, blank, before), capacity, blank);
    }
  }

  // Main result: under every interleaving the operations, each taken at one moment between its call
  // and its return, are those of a bounded queue: a push is refused only when it holds capacity
  // values, a pop finds nothing only when it is empty; what came out is a prefix of what went in,
  // and every refused push is counted once.
  lemma RingIsABoundedQueue<T(!new)>(capacity: nat, blank: T, turns: seq<Turn<T>>)
    ensures var s := Run(capacity, blank, turns);
            && s.popped <= s.pushed
            && Fifo(capacity, s.log) == Some(s.pushed[|s.popped|..])
            && s.dropped <= Refusals(s.log) <= s.dropped + 1
            && (s.producer.PIdle? ==> s.dropped == Refusals(s.log))
  {
    RunKeeps(capacity, blank, turns);
  }

  // ---------------------------------------------------------------- the object

  // The queue with its slots and indices in place; a call of one thread while the other is between
  // calls.  What interleaved calls do is the run above.
  class SpscRing<T(!new)> {
    const capacity: nat
    const blank: T
    const slots: array<T>
    var head: nat
    var tail: nat
    var dropped: nat
    ghost var pushed: seq<T>
    ghost var popped: seq<T>
    ghost var log: seq<Outcome<T>>

    ghost function View(): State<T>
      reads this, slots
    {
      State(slots[..], head, tail, dropped, PIdle, CIdle, pushed, popped, log)
    }

    ghost predicate Valid()
      reads this, slots
    {
      Inv(View(), capacity)
    }

    constructor (size: nat, filler: T)
      ensures Valid() && fresh(slots) && capacity == size && pushed == [] && popped == []
    {
      capacity := size;
      blank := filler;
      slots := new T[size + 1](_ => filler);
      head, tail, dropped := 0, 0, 0;
      pushed, popped, log := [], [], [];
    }

    method TryPush(value: T) returns (ok: bool)
      requires Valid()
      modifies this, slots
      ensures Valid() && popped == old(popped)
      ensures ok <==> |old(pushed)| < |old(popped)| + capacity
      ensures pushed == if ok then old(pushed) + [value] else old(pushed)
      ensures dropped == if ok then old(dropped) else old(dropped) + 1
    {
      hide Inv, After;
      RingFacts(View(), capacity);
      ghost var s0 := View();
      ghost var s1 := ProducerStep(s0, value);
      ghost var s2 := ProducerStep(s1, value);
      ghost var s3 := ProducerStep(s2, value);
      ProducerKeeps(s0, capacity, value);
      ProducerKeeps(s1, capacity, value);
      ProducerKeeps(s2, capacity, value);
      var next := After(tail, slots.Length);
      if next == head {
        dropped := dropped + 1;
        log := log + [RefusedFull];
        assert View() == s3;
        return false;
      }
      ProducerKeeps(s3, capacity, value);
      slots[tail] := value;
      tail := next;
      pushed := pushed + [value];
      log := log + [Pushed(value)];
      assert View() == ProducerStep(s3, value);
      return true;
    }

    method TryPop() returns (out: Option<T>)
      requires Valid()
      modifies this, slots
      ensures Valid() && pushed == old(pushed) && dropped == old(dropped)
      ensures out.None? <==> |old(popped)| == |old(pushed)|
      ensures out.None? ==> popped == old(popped)
      ensures out.Some? ==> popped == old(popped) + [out.value] && popped <= pushed
    {
      hide Inv, After;
      RingFacts(View(), capacity);
      ghost var s0 := View();
      ghost var s1 := ConsumerStep(s0, blank);
      ghost var s2 := ConsumerStep(s1, blank);
      ghost var s3 := ConsumerStep(s2, blank);
      ConsumerKeeps(s0, capacity, blank);
      ConsumerKeeps(s1, capacity, blank);
      if head == tail {
        log := log + [FoundEmpty];
        assert View() == s2;
        return None;
      }
      ghost var s4 := ConsumerStep(s3, blank);
      ConsumerKeeps(s2, capacity, blank);
      ConsumerKeeps(s3, capacity, blank);
      ConsumerKeeps(s4, capacity, blank);
      var value := slots[head];
      slots[head] := blank;
      head := After(head, slots.Length);
      popped := popped + [value];
      log := log + [Popped(value)];
      assert View() == ConsumerStep(s4, blank);
      RingFacts(View(), capacity);
      return Some(value);
    }
  }

  lemma RingFacts<T(!new)>(s: State<T>, capacity: nat)
    requires Inv(s, capacity)
    ensures |s.slots| == capacity + 1 && s.head < capacity + 1 && s.tail < capacity + 1
    ensures |s.popped| <= |s.pushed| <= |s.popped| + capacity && s.popped <= s.pushed
    ensures s.head == s.tail <==> |s.popped| == |s.pushed|
    ensures After(s.tail, capacity + 1) == s.head <==> |s.pushed| == |s.popped| + capacity
  {
    EmptyAndFull(|s.popped|, |s.pushed|, capacity);
  }
}
