/**
 The lists of retired peer epochs and attempt nonces (client/src/peer/epoch.cpp).
 */
module Epochs {
  import opened Wrappers

  const MAX_RETIRED_EPOCHS := 16
  const TTL := 120000

  // Something retired and when; the key is an epoch or a nonce.
  datatype Entry = Entry(key: nat, at: nat)

  predicate Expired(e: Entry, now: nat) {
    now >= e.at && now - e.at >= TTL
  }

  function Live(entries: seq<Entry>, now: nat): seq<Entry> {
    if entries == [] then []
    else if Expired(entries[0], now) then Live(entries[1..], now)
    else [entries[0]] + Live(entries[1..], now)
  }

  predicate Contains(entries: seq<Entry>, key: nat, now: nat) {
    exists i | 0 <= i < |entries| :: entries[i].key == key && !Expired(entries[i], now)
  }

  // Without the first entry of this key.
  function Without(entries: seq<Entry>, key: nat): seq<Entry> {
    if entries == [] then []
    else if entries[0].key == key then entries[1..]
    else [entries[0]] + Without(entries[1..], key)
  }

  function Newest(entries: seq<Entry>): (r: seq<Entry>)
    ensures |r| < MAX_RETIRED_EPOCHS
  {
    if |entries| < MAX_RETIRED_EPOCHS then entries else entries[|entries| - (MAX_RETIRED_EPOCHS - 1)..]
  }

  // Expired entries go, an entry of the same epoch moves to the back, and the oldest make room.
  function Add(entries: seq<Entry>, e: Entry): seq<Entry> {
    Newest(Without(Live(entries, e.at), e.key)) + [e]
  }

  function AddAll(entries: seq<Entry>, more: seq<Entry>): seq<Entry> {
    if more == [] then entries else Add(AddAll(entries, more[..|more| - 1]), more[|more| - 1])
  }

  // Nonces are kept without a cap and without merging.
  function AddNonce(entries: seq<Entry>, e: Entry): seq<Entry> {
    Live(entries, e.at) + [e]
  }

  // The first draw that is not zero; a failing source, or one that ends, gives nothing.
  function DrawEpoch(draws: seq<Option<U32>>): (r: Option<U32>)
    ensures r.Some? ==> r.value != 0 && Some(r.value) in draws
  {
    if draws == [] || draws[0].None? then None
    else if draws[0].value != 0 then draws[0]
    else DrawEpoch(draws[1..])
  }

  // The first draw that no earlier attempt of the last two minutes used.
  function DrawNonce(retired: seq<Entry>, now: nat, draws: seq<Option<nat>>): (r: Option<nat>)
    ensures r.Some? ==> !Contains(retired, r.value, now) && Some(r.value) in draws
  {
    if draws == [] || draws[0].None? then None
    else if !Contains(retired, draws[0].value, now) then draws[0]
    else DrawNonce(retired, now, draws[1..])
  }

  // ---------------------------------------------------------------- the shape of the list

  // Oldest first, no epoch twice, at most sixteen.
  ghost predicate InOrder(entries: seq<Entry>, last: nat) {
    && |entries| <= MAX_RETIRED_EPOCHS
    && (forall i, j | 0 <= i < j < |entries| :: entries[i].at <= entries[j].at && entries[i].key != entries[j].key)
    && (forall i | 0 <= i < |entries| :: entries[i].at <= last)
  }

  lemma {:induction false} LiveAre(entries: seq<Entry>, now: nat)
    ensures |Live(entries, now)| <= |entries|
    ensures forall x | x in Live(entries, now) :: x in entries && !Expired(x, now)
  {
    if entries != [] {
      LiveAre(entries[1..], now);
    }
  }

  lemma {:induction false} WithoutAre(entries: seq<Entry>, key: nat)
    ensures |Without(entries, key)| <= |entries|
    ensures forall x | x in Without(entries, key) :: x in entries
  {
    if entries != [] && entries[0].key != key {
      WithoutAre(entries[1..], key);
    }
  }

  // An entry before all of rest keeps the order.
  lemma InFront(e: Entry, tail: seq<Entry>, rest: seq<Entry>, last: nat)
    requires InOrder([e] + tail, last) && InOrder(rest, last) && |rest| <= |tail|
    requires forall x | x in rest :: x in tail
    ensures InOrder([e] + rest, last)
  {
    var all := [e] + tail;
    var r := [e] + rest;
    forall j | 1 <= j < |r|
      ensures r[0].at <= r[j].at && r[0].key != r[j].key
    {
      assert r[j] == rest[j - 1];
      assert rest[j - 1] in rest;
      var k: nat :| k < |tail| && tail[k] == r[j];
      assert all[k + 1] == r[j] && all[0] == e && r[0] == e;
    }
    forall i | 0 <= i < |r|
      ensures r[i].at <= last
    {
      assert all[0] == e;
    }
    forall i, j | 0 <= i < j < |r|
      ensures r[i].at <= r[j].at && r[i].key != r[j].key
    {
      if i > 0 {
        assert r[i] == rest[i - 1] && r[j] == rest[j - 1];
      }
    }
  }

  lemma {:induction false} LiveInOrder(entries: seq<Entry>, now: nat, last: nat)
    requires InOrder(entries, last)
    ensures InOrder(Live(entries, now), last)
  {
    if entries != [] {
      LiveInOrder(entries[1..], now, last);
      LiveAre(entries[1..], now);
      assert [entries[0]] + entries[1..] == entries;
      InFront(entries[0], entries[1..], Live(entries[1..], now), last);
    }
  }

  lemma {:induction false} WithoutInOrder(entries: seq<Entry>, key: nat, last: nat)
    requires InOrder(entries, last)
    ensures InOrder(Without(entries, key), last)
    ensures forall x | x in Without(entries, key) :: x.key != key
  {
    if entries != [] && entries[0].key != key {
      WithoutInOrder(entries[1..], key, last);
      WithoutAre(entries[1..], key);
      assert [entries[0]] + entries[1..] == entries;
      InFront(entries[0], entries[1..], Without(entries[1..], key), last);
    }
  }

  // Main result: adding keeps the list distinct, in time order and at most sixteen long.
  lemma AddKeepsOrder(entries: seq<Entry>, e: Entry, last: nat)
    requires InOrder(entries, last) && last <= e.at
    ensures InOrder(Add(entries, e), e.at)
    ensures Contains(Add(entries, e), e.key, e.at)
  {
    hide Live, Without;
    LiveInOrder(entries, e.at, last);
    WithoutInOrder(Live(entries, e.at), e.key, last);
    AppendInOrder(Without(Live(entries, e.at), e.key), e, last);
    var r := Add(entries, e);
    assert r[|r| - 1] == e;
  }

  lemma AppendInOrder(others: seq<Entry>, e: Entry, last: nat)
    requires InOrder(others, last) && last <= e.at && forall x | x in others :: x.key != e.key
    ensures InOrder(Newest(others) + [e], e.at)
  {
    var k := |others| - |Newest(others)|;
    assert Newest(others) == others[k..];
    TailInOrder(others, k, last);
    BehindAll(others[k..], e, last);
    hide InOrder, Newest;
  }

  lemma TailInOrder(entries: seq<Entry>, k: nat, last: nat)
    requires InOrder(entries, last) && k <= |entries|
    ensures InOrder(entries[k..], last)
  {
    var tail := entries[k..];
    assert forall i | 0 <= i < |tail| :: tail[i] == entries[i + k];
  }

  lemma BehindAll(entries: seq<Entry>, e: Entry, last: nat)
    requires InOrder(entries, last) && last <= e.at && |entries| < MAX_RETIRED_EPOCHS
    requires forall x | x in entries :: x.key != e.key
    ensures InOrder(entries + [e], e.at)
  {
    assert forall i | 0 <= i < |entries| :: entries[i].key != e.key;
  }

  // ---------------------------------------------------------------- how long an entry stays

  // An entry of this key, at least as new as since, with at most after entries behind it.
  predicate Stays(entries: seq<Entry>, key: nat, since: nat, after: int) {
    exists i | 0 <= i < |entries| :: entries[i].key == key && entries[i].at >= since && |entries| - 1 - i <= after
  }

  lemma {:induction false} LiveStays(entries: seq<Entry>, key: nat, since: nat, after: int, now: nat)
    requires Stays(entries, key, since, after) && now < since + TTL
    ensures Stays(Live(entries, now), key, since, after)
  {
    var i :| 0 <= i < |entries| && entries[i].key == key && entries[i].at >= since && |entries| - 1 - i <= after;
    var tail := entries[1..];
    if i > 0 {
      assert tail[i - 1] == entries[i];
      LiveStays(tail, key, since, after, now);
      var rest := Live(tail, now);
      if !Expired(entries[0], now) {
        var j :| 0 <= j < |rest| && rest[j].key == key && rest[j].at >= since && |rest| - 1 - j <= after;
        assert Live(entries, now)[j + 1] == rest[j];
      }
    } else {
      LiveAre(tail, now);
      assert Live(entries, now)[0] == entries[0];
    }
  }

  lemma {:induction false} WithoutStays(entries: seq<Entry>, key: nat, since: nat, after: int, other: nat)
    requires Stays(entries, key, since, after) && key != other
    ensures Stays(Without(entries, other), key, since, after)
  {
    var i :| 0 <= i < |entries| && entries[i].key == key && entries[i].at >= since && |entries| - 1 - i <= after;
    var tail := entries[1..];
    if entries[0].key == other {
      assert tail[i - 1] == entries[i];
    } else if i > 0 {
      assert tail[i - 1] == entries[i];
      WithoutStays(tail, key, since, after, other);
      var rest := Without(tail, other);
      var j :| 0 <= j < |rest| && rest[j].key == key && rest[j].at >= since && |rest| - 1 - j <= after;
      assert Without(entries, other)[j + 1] == rest[j];
    } else {
      WithoutAre(tail, other);
      assert Without(entries, other)[0] == entries[0];
    }
  }

  lemma AddStays(entries: seq<Entry>, key: nat, since: nat, after: int, e: Entry)
    requires Stays(entries, key, since, after) && after + 1 < MAX_RETIRED_EPOCHS
    requires since <= e.at < since + TTL
    ensures Stays(Add(entries, e), key, since, after + 1)
  {
    hide Live, Without;
    var r := Add(entries, e);
    if e.key == key {
      assert r[|r| - 1] == e;
    } else {
      LiveStays(entries, key, since, after, e.at);
      WithoutStays(Live(entries, e.at), key, since, after, e.key);
      var others := Without(Live(entries, e.at), e.key);
      var i :| 0 <= i < |others| && others[i].key == key && others[i].at >= since && |others| - 1 - i <= after;
      var newest := Newest(others);
      assert r[i - (|others| - |newest|)] == others[i];
    }
  }

  ghost predicate TimeOrder(adds: seq<Entry>) {
    forall i, j | 0 <= i <= j < |adds| :: adds[i].at <= adds[j].at
  }

  lemma {:induction false} AddAllStays(adds: seq<Entry>, i: nat, now: nat)
    requires TimeOrder(adds) && i < |adds| && |adds| - 1 - i < MAX_RETIRED_EPOCHS
    requires adds[|adds| - 1].at <= now < adds[i].at + TTL
    ensures Stays(AddAll([], adds), adds[i].key, adds[i].at, |adds| - 1 - i)
  {
    var n := |adds| - 1;
    if i == n {
      var r := AddAll([], adds);
      assert r[|r| - 1] == adds[n];
    } else {
      AddAllStays(adds[..n], i, now);
      AddStays(AddAll([], adds[..n]), adds[i].key, adds[i].at, n - 1 - i, adds[n]);
    }
  }

  // Main result: a retired epoch is found for two minutes, unless sixteen more were retired since.
  lemma RetiredForTwoMinutes(adds: seq<Entry>, i: nat, now: nat)
    requires TimeOrder(adds) && i < |adds| && |adds| - 1 - i < MAX_RETIRED_EPOCHS
    requires adds[|adds| - 1].at <= now < adds[i].at + TTL
    ensures Contains(AddAll([], adds), adds[i].key, now)
  {
    AddAllStays(adds, i, now);
    var entries := AddAll([], adds);
    var j :| 0 <= j < |entries| && entries[j].key == adds[i].key && entries[j].at >= adds[i].at;
    assert !Expired(entries[j], now);
  }

  lemma {:induction false} AddAllKeepsOrder(adds: seq<Entry>)
    requires TimeOrder(adds)
    ensures InOrder(AddAll([], adds), if adds == [] then 0 else adds[|adds| - 1].at)
  {
    if adds != [] {
      var n := |adds| - 1;
      AddAllKeepsOrder(adds[..n]);
      var last := if n == 0 then 0 else adds[n - 1].at;
      AddKeepsOrder(AddAll([], adds[..n]), adds[n], last);
    }
  }

  // ---------------------------------------------------------------- the object

  class RetiredEpochs {
    var entries: seq<Entry>

    constructor ()
      ensures entries == []
    {
      entries := [];
    }

    method Expire(now: nat)
      modifies this
      ensures entries == Live(old(entries), now)
    {
      var i := 0;
      while i < |entries|
        invariant i <= |entries|
        invariant entries[..i] + Live(entries[i..], now) == Live(old(entries), now)
        decreases |entries| - i
      {
        var rest := entries[i..];
        if Expired(entries[i], now) {
          entries := entries[..i] + entries[i + 1..];
          assert entries[i..] == rest[1..];
        } else {
          i := i + 1;
          assert entries[..i] == entries[..i - 1] + [rest[0]] && entries[i..] == rest[1..];
        }
      }
      assert entries[i..] == [] && entries[..i] == entries;
    }

    method EraseSame(key: nat)
      modifies this
      ensures entries == Without(old(entries), key)
    {
      for i := 0 to |entries|
        invariant entries == old(entries)
        invariant entries[..i] + Without(entries[i..], key) == Without(entries, key)
      {
        var rest := entries[i..];
        if entries[i].key == key {
          assert rest[1..] == entries[i + 1..];
          entries := entries[..i] + entries[i + 1..];
          return;
        }
        assert entries[..i + 1] == entries[..i] + [rest[0]] && entries[i + 1..] == rest[1..];
      }
      assert entries[|entries|..] == [] && entries[..|entries|] == entries;
    }

    method AddEntry(e: Entry)
      modifies this
      ensures entries == Add(old(entries), e)
    {
      Expire(e.at);
      EraseSame(e.key);
      ghost var others := entries;
      while |entries| >= MAX_RETIRED_EPOCHS
        invariant Newest(entries) == Newest(others)
      {
        assert Newest(entries[1..]) == Newest(entries);
        entries := entries[1..];
      }
      entries := entries + [e];
    }

    method Has(key: nat, now: nat) returns (found: bool)
      ensures found <==> Contains(entries, key, now)
    {
      for i := 0 to |entries|
        invariant !Contains(entries[..i], key, now)
      {
        if entries[i].key == key && !Expired(entries[i], now) {
          return true;
        }
        assert entries[..i + 1] == entries[..i] + [entries[i]];
      }
      assert entries[..|entries|] == entries;
      return false;
    }
  }

  method GenerateAttemptNonce(retired: seq<Entry>, now: nat, draws: seq<Option<nat>>) returns (nonce: Option<nat>)
    ensures nonce == DrawNonce(retired, now, draws)
  {
    for i := 0 to |draws|
      invariant DrawNonce(retired, now, draws[i..]) == DrawNonce(retired, now, draws)
    {
      assert draws[i..][1..] == draws[i + 1..];
      if draws[i].None? {
        return None;
      }
      if !Contains(retired, draws[i].value, now) {
        return draws[i];
      }
    }
    return None;
  }
}
