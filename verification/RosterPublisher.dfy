/**
 The host's roster: when it is published and to whom (client/src/tunnel/roster_publisher.cpp), and
 what a player makes of the copies that reach it.
 */
module RosterPublisher {
  import opened Wrappers
  import P = Packet

  const INTERVAL := 15000
  const RESEND_INTERVAL := 5000
  const RESEND_COUNT := 2

  datatype RosterPeer = RosterPeer(id: U32, vip: U32, name: seq<Byte>)

  datatype Schedule = Schedule(periodDue: Option<nat>, resendDue: Option<nat>, resendsLeft: nat)

  // A roster handed to the session of this peer.
  datatype Sent = Sent(to: U32, roster: P.Roster)

  function MemberOf(p: RosterPeer, connected: bool): P.Member {
    P.Member(p.id, p.vip, connected, if |p.name| <= P.MAX_NAME_LEN then p.name else p.name[..P.MAX_NAME_LEN])
  }

  function Members(peers: seq<RosterPeer>, connected: seq<U32>): seq<P.Member> {
    seq(|peers|, i requires 0 <= i < |peers| => MemberOf(peers[i], peers[i].id in connected))
  }

  // The host itself is always connected, and first.
  function Build(me: RosterPeer, peers: seq<RosterPeer>, connected: seq<U32>): seq<P.Member> {
    [MemberOf(me, true)] + Members(peers, connected)
  }

  // What the host publishes, member by member: itself first and always connected, then every other peer, whose
  // connected bit tells whether it is among the connected.
  ghost predicate Shows(members: seq<P.Member>, me: RosterPeer, peers: seq<RosterPeer>, connected: seq<U32>) {
    && |members| == |peers| + 1
    && members[0].connected && Names(members[0], me)
    && (forall i | 0 <= i < |peers| :: Names(members[i + 1], peers[i]) && (members[i + 1].connected <==> peers[i].id in connected))
  }

  predicate Names(m: P.Member, p: RosterPeer) {
    && m.peerId == p.id && m.virtualIp == p.vip
    && |m.name| == (if |p.name| < P.MAX_NAME_LEN then |p.name| else P.MAX_NAME_LEN)
    && m.name == p.name[..|m.name|]
  }

  lemma BuildShows(me: RosterPeer, peers: seq<RosterPeer>, connected: seq<U32>)
    ensures Shows(Build(me, peers, connected), me, peers, connected)
  {
    var built := Build(me, peers, connected);
    forall i | 0 <= i < |peers|
      ensures built[i + 1] == MemberOf(peers[i], peers[i].id in connected)
    {
      assert built[i + 1] == Members(peers, connected)[i];
    }
  }

  // Nothing but these peers and bits decides a roster, so a change of either is seen as one.
  lemma ShownIsOne(a: seq<P.Member>, b: seq<P.Member>, me: RosterPeer, peers: seq<RosterPeer>, connected: seq<U32>)
    requires Shows(a, me, peers, connected) && Shows(b, me, peers, connected)
    ensures a == b
  {
    forall i | 0 <= i < |a|
      ensures a[i] == b[i]
    {
      if i > 0 {
        assert Names(a[(i - 1) + 1], peers[i - 1]) && Names(b[(i - 1) + 1], peers[i - 1]);
      }
    }
  }

  predicate IsPeer(peers: seq<RosterPeer>, id: U32) {
    exists i :: 0 <= i < |peers| && peers[i].id == id
  }

  ghost predicate Distinct(ids: seq<U32>) {
    forall i, j | 0 <= i < j < |ids| :: ids[i] != ids[j]
  }

  // Equal generations carry equal members.
  ghost predicate Agree(log: seq<Sent>) {
    forall i, j | 0 <= i < |log| && 0 <= j < |log| && log[i].roster.generation == log[j].roster.generation ::
      log[i].roster.members == log[j].roster.members
  }

  // No session is sent to twice.
  ghost predicate OncePerSession(log: seq<Sent>) {
    forall i, j | 0 <= i < j < |log| :: log[i].to != log[j].to
  }

  // ---------------------------------------------------------------- one session's schedule

  predicate IsDue(s: Schedule, now: nat) {
    (s.resendDue.Some? && s.resendDue.value <= now) || (s.periodDue.Some? && s.periodDue.value <= now)
  }

  // A change, or entering the connected, starts the schedule of a session anew.
  predicate Enters(schedules: map<U32, Schedule>, id: U32, changed: bool) {
    changed || id !in schedules
  }

  function Entered(schedules: map<U32, Schedule>, id: U32, changed: bool, now: nat): Schedule {
    if changed then Schedule(Some(now + INTERVAL), Some(now + RESEND_INTERVAL), RESEND_COUNT)
    else if id in schedules then schedules[id]
    else Schedule(Some(now + INTERVAL), None, 0)
  }

  // A resend counts down and puts the period off; a period only starts again.
  function Served(s: Schedule, now: nat): Schedule {
    if s.resendDue.Some? && s.resendDue.value <= now then
      Schedule(Some(now + INTERVAL), if s.resendsLeft > 1 then Some(now + RESEND_INTERVAL) else None,
               if s.resendsLeft > 0 then s.resendsLeft - 1 else 0)
    else if s.periodDue.Some? && s.periodDue.value <= now then s.(periodDue := Some(now + INTERVAL))
    else s
  }

  function Refreshed(schedules: map<U32, Schedule>, connected: seq<U32>, changed: bool, now: nat): map<U32, Schedule> {
    map id | id in connected :: Entered(schedules, id, changed, now)
  }

  function ServedAll(schedules: map<U32, Schedule>, connected: seq<U32>, now: nat): map<U32, Schedule> {
    map id | id in schedules :: if id in connected then Served(schedules[id], now) else schedules[id]
  }

  // The schedules once some of the connected sessions have been entered.
  function EnteredSome(schedules: map<U32, Schedule>, ids: seq<U32>, changed: bool, now: nat): map<U32, Schedule> {
    map id | id in schedules.Keys + (set x | x in ids) :: if id in ids then Entered(schedules, id, changed, now) else schedules[id]
  }

  lemma EnteredNone(schedules: map<U32, Schedule>, changed: bool, now: nat, log: seq<Sent>, roster: Option<P.Roster>)
    ensures schedules == EnteredSome(schedules, [], changed, now)
    ensures log == log + Letters(Entering([], schedules, changed), roster)
  {
    hide Entered;
  }

  lemma EnteredNext(schedules: map<U32, Schedule>, ids: seq<U32>, id: U32, changed: bool, now: nat)
    requires id !in ids
    ensures var some := EnteredSome(schedules, ids, changed, now);
            && Entered(some, id, changed, now) == Entered(schedules, id, changed, now)
            && Enters(some, id, changed) == Enters(schedules, id, changed)
            && EnteredSome(schedules, ids + [id], changed, now) == some[id := Entered(schedules, id, changed, now)]
  {
  }

  lemma ServedNone(schedules: map<U32, Schedule>, now: nat, log: seq<Sent>, roster: Option<P.Roster>)
    ensures schedules == ServedAll(schedules, [], now)
    ensures log == log + Letters(Overdue([], schedules, now), roster)
  {
    hide Served;
  }

  lemma ServedNext(schedules: map<U32, Schedule>, ids: seq<U32>, id: U32, now: nat)
    requires id !in ids
    ensures var some := ServedAll(schedules, ids, now);
            && (id in some <==> id in schedules) && (id in some ==> some[id] == schedules[id])
            && ServedAll(schedules, ids + [id], now) ==
               if id in schedules then some[id := Served(schedules[id], now)] else some
  {
    hide Served;
  }

  // The sessions a refresh sends to, in order.
  function Entering(ids: seq<U32>, schedules: map<U32, Schedule>, changed: bool): seq<U32> {
    if ids == [] then []
    else
      var id := ids[|ids| - 1];
      Entering(ids[..|ids| - 1], schedules, changed) + if Enters(schedules, id, changed) then [id] else []
  }

  // The sessions whose schedule is due, in order.
  function Overdue(ids: seq<U32>, schedules: map<U32, Schedule>, now: nat): seq<U32> {
    if ids == [] then []
    else
      var id := ids[|ids| - 1];
      Overdue(ids[..|ids| - 1], schedules, now) + if id in schedules && IsDue(schedules[id], now) then [id] else []
  }

  function Letters(ids: seq<U32>, roster: Option<P.Roster>): seq<Sent> {
    if roster.None? then [] else seq(|ids|, i requires 0 <= i < |ids| => Sent(ids[i], roster.value))
  }

  // A refresh and the schedules after it never choose the same session.
  function Receivers(connected: seq<U32>, schedules: map<U32, Schedule>, refreshes: bool, changed: bool, now: nat): seq<U32> {
    (if refreshes then Entering(connected, schedules, changed) else [])
    + Overdue(connected, Base(connected, schedules, refreshes, changed, now), now)
  }

  // The schedules once a pending refresh is done.
  function Base(connected: seq<U32>, schedules: map<U32, Schedule>, refreshes: bool, changed: bool, now: nat): map<U32, Schedule> {
    if refreshes then Refreshed(schedules, connected, changed, now) else schedules
  }

  lemma {:induction false} EnteringAre(ids: seq<U32>, schedules: map<U32, Schedule>, changed: bool)
    requires Distinct(ids)
    ensures Distinct(Entering(ids, schedules, changed))
    ensures forall id :: id in Entering(ids, schedules, changed) <==> id in ids && Enters(schedules, id, changed)
  {
    if ids != [] {
      EnteringAre(ids[..|ids| - 1], schedules, changed);
      assert ids == ids[..|ids| - 1] + [ids[|ids| - 1]];
    }
  }

  lemma {:induction false} OverdueAre(ids: seq<U32>, schedules: map<U32, Schedule>, now: nat)
    requires Distinct(ids)
    ensures Distinct(Overdue(ids, schedules, now))
    ensures forall id :: id in Overdue(ids, schedules, now) <==> id in ids && id in schedules && IsDue(schedules[id], now)
  {
    if ids != [] {
      OverdueAre(ids[..|ids| - 1], schedules, now);
      assert ids == ids[..|ids| - 1] + [ids[|ids| - 1]];
    }
  }

  lemma EnteredNotDue(schedules: map<U32, Schedule>, id: U32, changed: bool, now: nat)
    ensures IsDue(Entered(schedules, id, changed, now), now) <==>
              !Enters(schedules, id, changed) && id in schedules && IsDue(schedules[id], now)
  {
  }

  lemma ReceiversAre(connected: seq<U32>, schedules: map<U32, Schedule>, refreshes: bool, changed: bool, now: nat)
    requires Distinct(connected)
    ensures Distinct(Receivers(connected, schedules, refreshes, changed, now))
    ensures forall id :: id in Receivers(connected, schedules, refreshes, changed, now) <==>
              id in connected && ((refreshes && Enters(schedules, id, changed)) || (id in schedules && IsDue(schedules[id], now)))
  {
    EnteringAre(connected, schedules, changed);
    var base := if refreshes then Refreshed(schedules, connected, changed, now) else schedules;
    OverdueAre(connected, base, now);
    hide Entering, Overdue, Enters, Entered, IsDue;
    if refreshes {
      forall id | id in connected
        ensures id in base && (IsDue(base[id], now) <==> !Enters(schedules, id, changed) && id in schedules && IsDue(schedules[id], now))
      {
        EnteredNotDue(schedules, id, changed, now);
      }
      DistinctJoin(Entering(connected, schedules, changed), Overdue(connected, base, now));
    } else {
      assert [] + Overdue(connected, base, now) == Overdue(connected, base, now);
    }
  }

  lemma DistinctJoin(a: seq<U32>, b: seq<U32>)
    requires Distinct(a) && Distinct(b) && forall id | id in a :: id !in b
    ensures Distinct(a + b)
  {
    forall i, j | 0 <= i < j < |a + b|
      ensures (a + b)[i] != (a + b)[j]
    {
      if i < |a| <= j {
        assert a[i] in a && b[j - |a|] in b;
      }
    }
  }

  function Kept(schedules: map<U32, Schedule>, connected: seq<U32>): map<U32, Schedule> {
    map id | id in schedules && id in connected :: schedules[id]
  }

  // Forgetting the sessions that left changes nothing for those that are connected.
  lemma RefreshedKept(schedules: map<U32, Schedule>, connected: seq<U32>, changed: bool, now: nat)
    ensures EnteredSome(Kept(schedules, connected), connected, changed, now) == Refreshed(schedules, connected, changed, now)
    ensures Entering(connected, Kept(schedules, connected), changed) == Entering(connected, schedules, changed)
  {
    EnteringKept(connected, connected, schedules, Kept(schedules, connected), changed);
  }

  lemma {:induction false} EnteringKept(ids: seq<U32>, connected: seq<U32>, before: map<U32, Schedule>, kept: map<U32, Schedule>, changed: bool)
    requires forall id | id in connected :: id in kept <==> id in before
    requires forall id | id in ids :: id in connected
    ensures Entering(ids, kept, changed) == Entering(ids, before, changed)
  {
    if ids != [] {
      EnteringKept(ids[..|ids| - 1], connected, before, kept, changed);
    }
  }

  ghost predicate SentTo(log: seq<Sent>, id: U32) {
    exists i :: 0 <= i < |log| && log[i].to == id
  }

  lemma LettersReach(ids: seq<U32>, roster: Option<P.Roster>)
    requires Distinct(ids)
    ensures OncePerSession(Letters(ids, roster))
    ensures forall id :: SentTo(Letters(ids, roster), id) <==> roster.Some? && id in ids
  {
    var letters := Letters(ids, roster);
    forall id
      ensures SentTo(letters, id) <==> roster.Some? && id in ids
    {
      if roster.Some? && id in ids {
        var i :| 0 <= i < |ids| && ids[i] == id;
        assert letters[i].to == id;
      }
    }
  }

  lemma EnteringNext(ids: seq<U32>, id: U32, schedules: map<U32, Schedule>, changed: bool, roster: Option<P.Roster>)
    ensures Letters(Entering(ids + [id], schedules, changed), roster) ==
            Letters(Entering(ids, schedules, changed), roster) + Letters(if Enters(schedules, id, changed) then [id] else [], roster)
  {
    assert (ids + [id])[..|ids|] == ids;
    LettersJoin(Entering(ids, schedules, changed), if Enters(schedules, id, changed) then [id] else [], roster);
  }

  lemma OverdueNext(ids: seq<U32>, id: U32, schedules: map<U32, Schedule>, now: nat, roster: Option<P.Roster>)
    ensures Letters(Overdue(ids + [id], schedules, now), roster) ==
            Letters(Overdue(ids, schedules, now), roster)
            + Letters(if id in schedules && IsDue(schedules[id], now) then [id] else [], roster)
  {
    assert (ids + [id])[..|ids|] == ids;
    LettersJoin(Overdue(ids, schedules, now), if id in schedules && IsDue(schedules[id], now) then [id] else [], roster);
  }

  lemma LettersJoin(a: seq<U32>, b: seq<U32>, roster: Option<P.Roster>)
    ensures Letters(a, roster) + Letters(b, roster) == Letters(a + b, roster)
  {
  }

  // Every roster sent is valid, none is ahead of the present generation, and those of that generation are the present one.
  ghost predicate LogOk(log: seq<Sent>, generation: nat, present: Option<seq<P.Member>>) {
    && Agree(log)
    && (forall i | 0 <= i < |log| :: log[i].roster.generation <= generation && P.IsValidRoster(log[i].roster))
    && (present.Some? ==> forall i | 0 <= i < |log| && log[i].roster.generation == generation :: log[i].roster.members == present.value)
  }

  lemma LogOkGrows(log: seq<Sent>, id: U32, roster: P.Roster)
    requires LogOk(log, roster.generation, Some(roster.members)) && P.IsValidRoster(roster)
    ensures LogOk(log + [Sent(id, roster)], roster.generation, Some(roster.members))
  {
  }

  lemma LogOkRefreshed(log: seq<Sent>, generation: nat, last: seq<P.Member>, members: seq<P.Member>, changed: bool)
    requires LogOk(log, generation, Some(last)) && (!changed ==> members == last)
    ensures LogOk(log, if changed then generation + 1 else generation, Some(members))
  {
  }

  // ---------------------------------------------------------------- the publisher

  class Publisher {
    var me: Option<RosterPeer>
    var peers: seq<RosterPeer>
    var generation: nat
    var last: seq<P.Member>
    var forced: bool
    var schedules: map<U32, Schedule>
    var dirty: bool
    // What went to the sockets since start: a record, read by nothing here.
    var log: seq<Sent>
    // The connected sessions the present roster was built for.
    ghost var shown: seq<U32>

    // What was sent under the present generation is the present roster, and that roster shows the present peers
    // unless a refresh is pending.
    ghost predicate Valid()
      reads `me, `peers, `generation, `last, `dirty, `log, `shown
    {
      && LogOk(log, generation, if me.Some? then Some(last) else None)
      && (me.Some? && !dirty ==> Shows(last, me.value, peers, shown))
    }

    constructor ()
      ensures Valid() && me.None? && log == []
    {
      me, peers, generation, last, forced, schedules, dirty := None, [], 0, [], false, map[], false;
      log, shown := [], [];
    }

    method Start(own: RosterPeer)
      modifies this
      ensures Valid() && me == Some(own) && peers == [] && generation == 0 && log == [] && schedules == map[]
      ensures dirty && !forced && Shows(last, own, [], [])
    {
      me, peers, generation, schedules := Some(own), [], 0, map[];
      last := Build(own, [], []);
      BuildShows(own, [], []);
      forced, dirty := false, true;
      log, shown := [], [];
    }

    // A session that left is forgotten; a change at a member of the roster counts even if it is undone at once.
    method OnConnectedChange(peer: U32, entered: bool)
      requires Valid()
      modifies `schedules, `forced, `dirty
      ensures Valid()
      ensures me.None? ==> schedules == old(schedules) && forced == old(forced) && dirty == old(dirty)
      ensures me.Some? ==> dirty && (forced <==> old(forced) || IsPeer(peers, peer))
      ensures me.Some? ==> schedules == if entered then old(schedules) else old(schedules) - {peer}
    {
      if me.None? {
        return;
      }
      if !entered {
        schedules := schedules - {peer};
      }
      if IsPeer(peers, peer) {
        forced := true;
      }
      dirty := true;
    }

    method Stop()
      requires Valid()
      modifies `me, `peers, `schedules, `last, `forced, `dirty
      ensures Valid() && me.None? && peers == [] && schedules == map[] && !forced && !dirty
    {
      me, peers, schedules, last, forced, dirty := None, [], map[], [], false, false;
    }

    method SetPeers(others: seq<RosterPeer>)
      requires Valid()
      modifies `peers, `dirty
      ensures Valid() && peers == others && dirty
    {
      peers, dirty := others, true;
    }

    // The roster as it would leave now, if it can be encoded at all.
    function Present(): Option<P.Roster>
      reads `generation, `last
    {
      if generation < TWO32 && P.IsValidRoster(P.Roster(generation, last)) then Some(P.Roster(generation, last)) else None
    }

    // A roster that cannot be encoded is not sent; the period starts anew all the same.
    method SendTo(id: U32, now: nat)
      requires Valid() && me.Some? && id in schedules
      modifies `schedules, `log
      ensures Valid()
      ensures schedules == old(schedules)[id := old(schedules)[id].(periodDue := Some(now + INTERVAL))]
      ensures log == old(log) + Letters([id], Present())
    {
      hide LogOk, P.IsValidRoster, Shows;
      if generation < TWO32 {
        var r := P.Roster(generation, last);
        if P.IsValidRoster(r) {
          LogOkGrows(log, id, r);
          log := log + [Sent(id, r)];
        }
      }
      schedules := schedules[id := schedules[id].(periodDue := Some(now + INTERVAL))];
    }

    // The generation moves, by one, exactly when the roster changed or a change was forced; then every connected
    // session gets it, and otherwise those that are new.
    method Refresh(now: nat, connected: seq<U32>)
      requires Valid() && me.Some? && Distinct(connected)
      modifies `schedules, `forced, `last, `generation, `log, `shown
      ensures Valid() && !forced
      ensures Shows(last, me.value, peers, connected) && shown == connected
      ensures generation == old(generation) + if old(forced) || last != old(last) then 1 else 0
      ensures schedules == Refreshed(old(schedules), connected, generation != old(generation), now)
      ensures log == old(log) + Letters(Entering(connected, old(schedules), generation != old(generation)), Present())
    {
      hide LogOk, Shows, Present, Entering, Refreshed, EnteredSome;
      ghost var before := schedules;
      schedules := Kept(schedules, connected);
      var roster := Build(me.value, peers, connected);
      BuildShows(me.value, peers, connected);
      var changed := forced || roster != last;
      forced := false;
      if changed {
        generation := generation + 1;
      }
      last, shown := roster, connected;
      LogOkRefreshed(log, old(generation), old(last), last, changed);
      RefreshedKept(before, connected, changed, now);
      EnterAll(connected, changed, now);
    }

    method EnterAll(connected: seq<U32>, changed: bool, now: nat)
      requires Valid() && me.Some? && Distinct(connected)
      modifies `schedules, `log
      ensures Valid()
      ensures schedules == EnteredSome(old(schedules), connected, changed, now)
      ensures log == old(log) + Letters(Entering(connected, old(schedules), changed), Present())
    {
      hide Valid, Present, Entered, Enters, EnteredSome, Entering, Letters;
      EnteredNone(schedules, changed, now, log, Present());
      for i := 0 to |connected|
        invariant Valid()
        invariant schedules == EnteredSome(old(schedules), connected[..i], changed, now)
        invariant log == old(log) + Letters(Entering(connected[..i], old(schedules), changed), Present())
      {
        var id := connected[i];
        assert id !in connected[..i];
        EnteredNext(old(schedules), connected[..i], id, changed, now);
        Enter(id, changed, now);
        assert connected[..i + 1] == connected[..i] + [id];
        EnteringNext(connected[..i], id, old(schedules), changed, Present());
      }
      assert connected[..|connected|] == connected;
    }

    // A session that is new among the connected, or any of them after a change, gets the roster now.
    method Enter(id: U32, changed: bool, now: nat)
      requires Valid() && me.Some?
      modifies `schedules, `log
      ensures Valid()
      ensures schedules == old(schedules)[id := Entered(old(schedules), id, changed, now)]
      ensures log == old(log) + Letters(if Enters(old(schedules), id, changed) then [id] else [], Present())
    {
      hide Valid, Present;
      var entered := id !in schedules;
      if entered {
        schedules := schedules[id := Schedule(None, None, 0)];
      }
      if changed || entered {
        SendTo(id, now);
        if changed {
          schedules := schedules[id := schedules[id].(resendDue := Some(now + RESEND_INTERVAL), resendsLeft := RESEND_COUNT)];
        }
      }
    }

    method ServeConnected(connected: seq<U32>, now: nat)
      requires Valid() && me.Some? && Distinct(connected)
      modifies `schedules, `log
      ensures Valid()
      ensures schedules == ServedAll(old(schedules), connected, now)
      ensures log == old(log) + Letters(Overdue(connected, old(schedules), now), Present())
    {
      hide Valid, Present, Served, IsDue, ServedAll, Overdue, Letters;
      ServedNone(schedules, now, log, Present());
      for i := 0 to |connected|
        invariant Valid()
        invariant schedules == ServedAll(old(schedules), connected[..i], now)
        invariant log == old(log) + Letters(Overdue(connected[..i], old(schedules), now), Present())
      {
        var id := connected[i];
        assert id !in connected[..i];
        assert connected[..i + 1] == connected[..i] + [id];
        ServedNext(old(schedules), connected[..i], id, now);
        ServeDue(id, now);
        OverdueNext(connected[..i], id, old(schedules), now, Present());
      }
      assert connected[..|connected|] == connected;
    }

    // A resend starts the period anew, so one run never sends twice to a session.
    method ServeDue(id: U32, now: nat)
      requires Valid() && me.Some?
      modifies `schedules, `log
      ensures Valid()
      ensures schedules == if id in old(schedules) then old(schedules)[id := Served(old(schedules)[id], now)] else old(schedules)
      ensures log == old(log) + Letters(if id in old(schedules) && IsDue(old(schedules)[id], now) then [id] else [], Present())
    {
      hide Valid, Present;
      if id in schedules {
        if schedules[id].resendDue.Some? && schedules[id].resendDue.value <= now {
          SendTo(id, now);
          var left := if schedules[id].resendsLeft > 0 then schedules[id].resendsLeft - 1 else 0;
          schedules := schedules[id := schedules[id].(
            resendsLeft := left, resendDue := if left > 0 then Some(now + RESEND_INTERVAL) else None)];
        }
        if schedules[id].periodDue.Some? && schedules[id].periodDue.value <= now {
          SendTo(id, now);
        }
      }
    }

    method RefreshIfDirty(now: nat, connected: seq<U32>)
      requires Valid() && me.Some? && Distinct(connected)
      modifies `schedules, `forced, `last, `generation, `log, `shown, `dirty
      ensures Valid() && !dirty && shown == (if old(dirty) then connected else old(shown))
      ensures generation == old(generation) + if old(dirty) && (old(forced) || last != old(last)) then 1 else 0
      ensures forced == if old(dirty) then false else old(forced)
      ensures schedules == Base(connected, old(schedules), old(dirty), generation != old(generation), now)
      ensures log == old(log) + Letters(if old(dirty) then Entering(connected, old(schedules), generation != old(generation)) else [], Present())
    {
      hide LogOk, Shows, Letters, Entering, Refreshed, Present;
      if dirty {
        Refresh(now, connected);
        dirty := false;
      } else {
        LettersNone(log, Present());
      }
    }

    method RunSchedules(now: nat, connected: seq<U32>)
      requires Valid() && me.Some? && Distinct(connected)
      modifies `schedules, `forced, `last, `generation, `log, `shown, `dirty
      ensures Valid() && !dirty && shown == (if old(dirty) then connected else old(shown))
      ensures generation == old(generation) + if old(dirty) && (old(forced) || last != old(last)) then 1 else 0
      ensures forced == if old(dirty) then false else old(forced)
      ensures schedules == ServedAll(Base(connected, old(schedules), old(dirty), generation != old(generation), now), connected, now)
      ensures log == old(log) + Letters(Receivers(connected, old(schedules), old(dirty), generation != old(generation), now), Present())
    {
      hide Valid, Letters, Entering, Overdue, Base, ServedAll, Present;
      RefreshIfDirty(now, connected);
      ghost var base := schedules;
      ghost var entering := if old(dirty) then Entering(connected, old(schedules), generation != old(generation)) else [];
      ServeConnected(connected, now);
      LettersJoin(entering, Overdue(connected, base, now), Present());
    }

    // Main result: who gets what in one run.  Every roster that leaves shows the present peers and which of them are
    // connected; it goes once to every connected session that is new, that a change reaches, or whose schedule is due.
    method RunAt(now: nat, connected: seq<U32>)
      requires Valid() && Distinct(connected)
      modifies `schedules, `forced, `last, `generation, `log, `shown, `dirty
      ensures Valid() && old(log) <= log
      ensures me.None? ==> log == old(log) && schedules == old(schedules) && generation == old(generation)
      ensures me.Some? ==> !dirty && shown == if old(dirty) then connected else old(shown)
      ensures me.Some? ==>
                generation == old(generation) + if old(dirty) && (old(forced) || last != old(last)) then 1 else 0
      ensures me.Some? ==>
                schedules == ServedAll(Base(connected, old(schedules), old(dirty), generation != old(generation), now), connected, now)
      ensures me.Some? ==> forall id | id in connected ::
                SentTo(log[|old(log)|..], id) <==>
                  && Present().Some?
                  && ((old(dirty) && Enters(old(schedules), id, generation != old(generation)))
                      || (id in old(schedules) && IsDue(old(schedules)[id], now)))
      ensures OncePerSession(log[|old(log)|..])
      ensures me.Some? ==> forall i | |old(log)| <= i < |log| ::
                && log[i].to in connected && log[i].roster.generation == generation
                && Shows(log[i].roster.members, me.value, peers, shown)
    {
      if me.None? {
        return;
      }
      RunSchedules(now, connected);
      hide LogOk, Shows, Letters, Receivers, Base, ServedAll, OncePerSession, SentTo, Enters, IsDue;
      RunReaches(old(log), log, connected, old(schedules), old(dirty), generation != old(generation), now, Present());
    }
  }

  lemma LettersNone(log: seq<Sent>, roster: Option<P.Roster>)
    ensures log + Letters([], roster) == log
  {
  }

  // The letters of one run, seen one by one.
  lemma RunReaches(before: seq<Sent>, log: seq<Sent>, connected: seq<U32>, schedules: map<U32, Schedule>, refreshes: bool,
                   changed: bool, now: nat, roster: Option<P.Roster>)
    requires Distinct(connected)
    requires log == before + Letters(Receivers(connected, schedules, refreshes, changed, now), roster)
    ensures before <= log && OncePerSession(log[|before|..])
    ensures forall id | id in connected ::
              SentTo(log[|before|..], id) <==>
                roster.Some? && ((refreshes && Enters(schedules, id, changed)) || (id in schedules && IsDue(schedules[id], now)))
    ensures forall i | |before| <= i < |log| :: roster.Some? && log[i].to in connected && log[i].roster == roster.value
  {
    hide Receivers, OncePerSession, SentTo, Enters, IsDue;
    var ids := Receivers(connected, schedules, refreshes, changed, now);
    ReceiversAre(connected, schedules, refreshes, changed, now);
    LettersReach(ids, roster);
    assert log[|before|..] == Letters(ids, roster);
    forall i | |before| <= i < |log|
      ensures roster.Some? && log[i].to in connected && log[i].roster == roster.value
    {
      assert log[i] == Letters(ids, roster)[i - |before|];
      assert ids[i - |before|] in ids;
    }
  }

  // ---------------------------------------------------------------- the player's side

  // What a player accepts of the payloads that reach it from the host, in their order.
  function Accepted(last: Option<U32>, payloads: seq<seq<Byte>>): seq<P.Roster>
    decreases |payloads|
  {
    if payloads == [] then []
    else
      match P.DecodeRoster(payloads[0], P.RosterContext(true, last))
      case RosterOk(r) => [r] + Accepted(Some(r.generation), payloads[1..])
      case RosterBad(_) => Accepted(last, payloads[1..])
  }

  // Each payload is some published roster: lost, repeated or out of order as the network likes.
  ghost predicate FromLog(log: seq<Sent>, payloads: seq<seq<Byte>>) {
    forall k | 0 <= k < |payloads| :: IsPublished(log, payloads[k])
  }

  ghost predicate IsPublished(log: seq<Sent>, payload: seq<Byte>) {
    exists i :: 0 <= i < |log| && P.IsValidRoster(log[i].roster) && payload == P.RosterBytes(log[i].roster)
  }

  ghost predicate InLog(log: seq<Sent>, r: P.Roster) {
    exists i :: 0 <= i < |log| && log[i].roster == r
  }

  ghost predicate PublishedSince(log: seq<Sent>, last: Option<U32>, accepted: seq<P.Roster>) {
    forall k | 0 <= k < |accepted| :: InLog(log, accepted[k]) && (last.Some? ==> accepted[k].generation >= last.value)
  }

  ghost predicate NeverFalls(accepted: seq<P.Roster>) {
    forall k, l | 0 <= k < l < |accepted| :: accepted[k].generation <= accepted[l].generation
  }

  // Main result: whatever the network does to the published rosters, the generations a player accepts
  // never fall, and every roster it accepts is one the host published, under that generation.
  lemma {:induction false} AcceptedArePublished(log: seq<Sent>, last: Option<U32>, payloads: seq<seq<Byte>>)
    requires FromLog(log, payloads)
    ensures PublishedSince(log, last, Accepted(last, payloads)) && NeverFalls(Accepted(last, payloads))
    decreases |payloads|
  {
    hide P.DecodeRoster;
    if payloads != [] {
      assert FromLog(log, payloads[1..]);
      var context := P.RosterContext(true, last);
      match P.DecodeRoster(payloads[0], context) {
        case RosterOk(r) =>
          DecodedIsPublished(log, payloads[0], context, r);
          AcceptedArePublished(log, Some(r.generation), payloads[1..]);
          var rest := Accepted(Some(r.generation), payloads[1..]);
          assert Accepted(last, payloads) == [r] + rest;
        case RosterBad(_) =>
          AcceptedArePublished(log, last, payloads[1..]);
          assert Accepted(last, payloads) == Accepted(last, payloads[1..]);
      }
    }
  }

  lemma DecodedIsPublished(log: seq<Sent>, payload: seq<Byte>, context: P.RosterContext, r: P.Roster)
    requires IsPublished(log, payload) && P.DecodeRoster(payload, context) == P.RosterOk(r)
    ensures InLog(log, r) && P.GenerationAcceptable(context, r.generation)
  {
    P.DecodeThenEncode(payload, context, r);
    hide P.DecodeRoster;
    var i: nat :| i < |log| && P.IsValidRoster(log[i].roster) && payload == P.RosterBytes(log[i].roster);
    P.EncodeThenDecode(log[i].roster, P.RosterContext(true, None));
    P.EncodeThenDecode(r, P.RosterContext(true, None));
    assert r == log[i].roster;
  }

  // Main result: two players, or one player twice, that accept the same generation hold the same members.
  lemma SameGenerationSameRoster(log: seq<Sent>, a: seq<seq<Byte>>, b: seq<seq<Byte>>, k: nat, l: nat)
    requires Agree(log) && FromLog(log, a) && FromLog(log, b)
    requires k < |Accepted(None, a)| && l < |Accepted(None, b)|
    requires Accepted(None, a)[k].generation == Accepted(None, b)[l].generation
    ensures Accepted(None, a)[k].members == Accepted(None, b)[l].members
  {
    AcceptedArePublished(log, None, a);
    AcceptedArePublished(log, None, b);
    var i: nat :| i < |log| && log[i].roster == Accepted(None, a)[k];
    var j: nat :| j < |log| && log[j].roster == Accepted(None, b)[l];
  }
}
