/**
 The 64-slot acceptance window over 32-bit wrapping sequence numbers
 (client/src/tunnel/replay.cpp).

 The window keeps a highest number, its unwrapped position and a 64-bit map of what
 was seen behind it.  The map is modelled as 64 booleans; its shift is defined for
 amounts below 64 only, so every shift the code performs is a proof obligation.
 The reference it is proved against is the plain set of accepted positions.
 */
module Replay {
  import opened Wrappers

  const WINDOW: U32 := 64

  // ---------------------------------------------------------------- arithmetic

  function Sub32(a: U32, b: U32): U32 {
    (a - b) % TWO32
  }

  predicate IsNewer(a: U32, b: U32) {
    a != b && Sub32(a, b) < 0x8000_0000
  }

  // Exactly one of two different numbers is newer, unless they are half a cycle apart.
  lemma IsNewerIsAntisymmetric(a: U32, b: U32)
    requires a != b
    ensures Sub32(a, b) != 0x8000_0000 ==> (IsNewer(a, b) <==> !IsNewer(b, a))
    ensures Sub32(a, b) == 0x8000_0000 ==> !IsNewer(a, b) && !IsNewer(b, a)
  {
    if a > b {
      assert Sub32(a, b) == a - b && Sub32(b, a) == b - a + TWO32;
    } else {
      assert Sub32(a, b) == a - b + TWO32 && Sub32(b, a) == b - a;
    }
  }

  type Bits = b: seq<bool> | |b| == 64 witness seq(64, _ => false)

  function NoBits(): Bits {
    seq(64, _ => false)
  }

  function BitForBack(back: U32): (b: Bits)
    requires 1 <= back <= WINDOW
  {
    seq(64, i => i == back - 1)
  }

  function Shl(x: Bits, n: U32): (b: Bits)
    requires n < 64
  {
    seq(64, i requires 0 <= i < 64 => i >= n && x[i - n])
  }

  function Or(x: Bits, y: Bits): (b: Bits) {
    seq(64, i requires 0 <= i < 64 => x[i] || y[i])
  }

  // ---------------------------------------------------------------- the window

  datatype Verdict = Advance | Reorder | Duplicate | TooOld

  datatype Decision = Decision(verdict: Verdict, number: U32, distance: U32, pktPos: int) {
    predicate Accepted() { verdict.Advance? || verdict.Reorder? }
    predicate Advanced() { verdict.Advance? }
  }

  datatype Window = Window(initialized: bool, highest: U32, position: int, seen: Bits)

  function Fresh(): Window {
    Window(false, 0, 0, NoBits())
  }

  function Check(w: Window, number: U32): Decision {
    if !w.initialized then
      Decision(Advance, number, 0, WINDOW)
    else if number == w.highest then
      Decision(Duplicate, number, 0, 0)
    else if IsNewer(number, w.highest) then
      var shift := Sub32(number, w.highest);
      Decision(Advance, number, shift, w.position + shift)
    else
      var back := Sub32(w.highest, number);
      if back > WINDOW then Decision(TooOld, number, back, 0)
      else if w.seen[back - 1] then Decision(Duplicate, number, back, 0)
      else Decision(Reorder, number, back, w.position - back)
  }

  function Shifted(seen: Bits, shift: U32): Bits
    requires shift >= 1
  {
    if shift > WINDOW then NoBits()
    else if shift == WINDOW then BitForBack(WINDOW)
    else Or(Shl(seen, shift), BitForBack(shift))
  }

  // State after accepting the decision Check has just made.
  function Record(w: Window, d: Decision): Window
    requires d == Check(w, d.number) && d.Accepted()
  {
    if !w.initialized then Window(true, d.number, WINDOW, NoBits())
    else if d.verdict.Advance? then Window(true, d.number, w.position + d.distance, Shifted(w.seen, d.distance))
    else w.(seen := Or(w.seen, BitForBack(d.distance)))
  }

  function Accept(w: Window, number: U32): Window {
    var d := Check(w, number);
    if d.Accepted() then Record(w, d) else w
  }

  // ---------------------------------------------------------------- reference: a set of positions

  // w stands for the set of accepted positions, when the first number of the stream was first.
  ghost predicate Stands(w: Window, first: U32, accepted: set<int>) {
    if !w.initialized then
      accepted == {}
    else
      && w.position >= WINDOW
      && WINDOW in accepted && w.position in accepted
      && (forall p | p in accepted :: 0 <= p <= w.position)
      && w.highest == (first + w.position - WINDOW) % TWO32
      && (forall i | 0 <= i < 64 :: w.seen[i] <==> w.position - 1 - i in accepted)
  }

  // The position a number denotes for a receiver whose newest position is top.
  function PositionOf(top: int, highest: U32, number: U32): int {
    if number == highest then top
    else if IsNewer(number, highest) then top + Sub32(number, highest)
    else top - Sub32(highest, number)
  }

  // One call: the window accepts exactly what the set reference accepts, and records exactly that position.
  lemma AcceptRefinesSet(w: Window, first: U32, accepted: set<int>, number: U32)
    requires Stands(w, first, accepted)
    ensures var d := Check(w, number);
            var top := if w.initialized then w.position else WINDOW as int;
            var pos := if w.initialized then PositionOf(w.position, w.highest, number) else WINDOW as int;
            && (d.Accepted() <==> pos !in accepted && pos >= top - WINDOW)
            && (d.Accepted() ==> d.pktPos == pos && pos >= 0)
            && (d.Advanced() <==> d.Accepted() && forall p | p in accepted :: p < pos)
            && (d.Accepted() && w.initialized ==> number == (first + pos - WINDOW) % TWO32)
            && Stands(Accept(w, number), if w.initialized then first else number,
                      if d.Accepted() then accepted + {pos} else accepted)
  {
    if w.initialized {
      var d := Check(w, number);
      if number != w.highest && !IsNewer(number, w.highest) {
        var back := Sub32(w.highest, number);
        assert back >= 1;
        if back <= WINDOW {
          assert w.seen[back - 1] <==> w.position - 1 - (back - 1) in accepted;
        }
      }
      if d.Accepted() {
        WindowNumber(w, first, number);
        if d.verdict.Advance? {
          ShiftedMeaning(w, first, accepted, d.distance);
        }
      }
    }
  }

  lemma WindowNumber(w: Window, first: U32, number: U32)
    requires w.highest == (first + w.position - WINDOW) % TWO32
    ensures number == (first + PositionOf(w.position, w.highest, number) - WINDOW) % TWO32
  {
  }

  lemma ShiftedMeaning(w: Window, first: U32, accepted: set<int>, shift: U32)
    requires w.initialized && Stands(w, first, accepted) && shift >= 1
    ensures forall i | 0 <= i < 64 ::
              Shifted(w.seen, shift)[i] <==> w.position + shift - 1 - i in accepted + {w.position + shift}
  {
    forall i | 0 <= i < 64
      ensures Shifted(w.seen, shift)[i] <==> w.position + shift - 1 - i in accepted + {w.position + shift}
    {
      if shift <= i {
        assert Shl(w.seen, shift)[i] == w.seen[i - shift];
      }
    }
  }

  // ---------------------------------------------------------------- whole runs

  function Run(w: Window, numbers: seq<U32>): Window {
    if numbers == [] then w else Accept(Run(w, numbers[..|numbers| - 1]), numbers[|numbers| - 1])
  }

  // Position recorded by the i-th call of the run, when that call accepted.
  function DecisionAt(numbers: seq<U32>, i: nat): Decision
    requires i < |numbers|
  {
    Check(Run(Fresh(), numbers[..i]), numbers[i])
  }

  ghost function Positions(numbers: seq<U32>): set<int> {
    set i | 0 <= i < |numbers| && DecisionAt(numbers, i).Accepted() :: DecisionAt(numbers, i).pktPos
  }

  // After any sequence of calls, the window stands for exactly the positions it has accepted.
  lemma {:induction false} RunRefinesSet(numbers: seq<U32>)
    ensures Stands(Run(Fresh(), numbers), if numbers == [] then 0 else numbers[0], Positions(numbers))
    ensures numbers != [] ==> Run(Fresh(), numbers).initialized
  {
    if numbers != [] {
      var n := |numbers| - 1;
      var before := numbers[..n];
      RunRefinesSet(before);
      PositionsGrow(numbers);
      AcceptRefinesSet(Run(Fresh(), before), if n == 0 then 0 else numbers[0], Positions(before), numbers[n]);
    }
  }

  lemma PositionsGrow(numbers: seq<U32>)
    requires numbers != []
    ensures var n := |numbers| - 1;
            var d := DecisionAt(numbers, n);
            Positions(numbers) == Positions(numbers[..n]) + (if d.Accepted() then {d.pktPos} else {})
  {
    var n := |numbers| - 1;
    forall i | 0 <= i < n
      ensures DecisionAt(numbers[..n], i) == DecisionAt(numbers, i)
    {
      assert numbers[..n][..i] == numbers[..i];
    }
  }

  // No position is accepted twice, however the numbers repeat, wrap or arrive out of order.
  lemma NoPositionAcceptedTwice(numbers: seq<U32>, i: nat, j: nat)
    requires i < j < |numbers|
    requires DecisionAt(numbers, i).Accepted() && DecisionAt(numbers, j).Accepted()
    ensures DecisionAt(numbers, i).pktPos != DecisionAt(numbers, j).pktPos
  {
    var before := numbers[..j];
    RunRefinesSet(before);
    assert before[..i] == numbers[..i];
    assert DecisionAt(before, i) == DecisionAt(numbers, i);
    AcceptRefinesSet(Run(Fresh(), before), numbers[0], Positions(before), numbers[j]);
  }

  // Every number whose position lies in the window and was not accepted before is accepted.
  lemma UnseenWithinWindowIsAccepted(numbers: seq<U32>, number: U32)
    requires numbers != []
    ensures var w := Run(Fresh(), numbers);
            var pos := PositionOf(w.position, w.highest, number);
            Check(w, number).Accepted() <==> pos >= w.position - WINDOW && pos !in Positions(numbers)
  {
    RunRefinesSet(numbers);
    AcceptRefinesSet(Run(Fresh(), numbers), numbers[0], Positions(numbers), number);
  }

  // ---------------------------------------------------------------- the class

  class ReplayWindow {
    var highest: U32
    var position: int
    var seenBits: Bits
    var initialized: bool

    constructor ()
      ensures State() == Fresh()
    {
      highest, position, seenBits, initialized := 0, 0, NoBits(), false;
    }

    function State(): Window
      reads this
    {
      Window(initialized, highest, position, seenBits)
    }

    method CheckNumber(number: U32) returns (d: Decision)
      ensures d == Check(State(), number)
    {
      if !initialized {
        return Decision(Advance, number, 0, WINDOW);
      }
      if number == highest {
        return Decision(Duplicate, number, 0, 0);
      }
      if IsNewer(number, highest) {
        var shift := Sub32(number, highest);
        return Decision(Advance, number, shift, position + shift);
      }
      var back := Sub32(highest, number);
      if back > WINDOW {
        return Decision(TooOld, number, back, 0);
      }
      if seenBits[back - 1] {
        return Decision(Duplicate, number, back, 0);
      }
      return Decision(Reorder, number, back, position - back);
    }

    // Commits only a decision that is still the one the present state would make.
    method Commit(decision: Decision) returns (done: bool)
      modifies this
      ensures done <==> decision.Accepted() && decision == Check(old(State()), decision.number)
      ensures done ==> State() == Record(old(State()), decision)
      ensures !done ==> State() == old(State())
    {
      if !decision.Accepted() {
        return false;
      }
      var again := CheckNumber(decision.number);
      if again != decision {
        return false;
      }
      if !initialized {
        highest, position, seenBits, initialized := decision.number, WINDOW, NoBits(), true;
        return true;
      }
      if decision.verdict.Advance? {
        var shift := decision.distance;
        if shift > WINDOW {
          seenBits := NoBits();
        } else if shift == WINDOW {
          seenBits := BitForBack(WINDOW);
        } else {
          seenBits := Or(Shl(seenBits, shift), BitForBack(shift));
        }
        highest := decision.number;
        position := position + shift;
        return true;
      }
      seenBits := Or(seenBits, BitForBack(decision.distance));
      return true;
    }

    method AcceptNumber(number: U32) returns (d: Decision)
      modifies this
      ensures d == Check(old(State()), number)
      ensures State() == Accept(old(State()), number)
    {
      d := CheckNumber(number);
      if d.Accepted() {
        var _ := Commit(d);
      }
    }

    method Reset()
      modifies this
      ensures State() == Fresh()
    {
      highest, position, seenBits, initialized := 0, 0, NoBits(), false;
    }
  }
}
