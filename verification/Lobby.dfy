/**
 The lobby (client/src/control/lobby.cpp): commands, replies, timers and session events come in,
 lists of actions go out.  The object keeps a ghost record of everything that happened, and its
 validity says what that record means to the things that must stay in step with it: the timer set
 the actions arm and cancel, the channel that carries one request at a time, and the ids of those who
 left and are still to be reported.

 Text for people, log lines and counters are left out.  Whether a request body can be built is an
 arbitrary predicate on it.
 */
module Lobby {
  import opened Wrappers

  const MAX_OTHERS := 4
  const MAX_TRIES := 3
  const RETRY_MS := 1000
  const POLL_MS := 500
  const DEADLINE_MS := 60000
  const REPORT_OPEN_MS := 5000
  const REPORT_FULL_MS := 30000

  type PeerId = nat
  type RoomId = nat
  type Token = nat
  type Vip = nat

  datatype Stage = InLobby | Issuing | Stun | Registering | Polling | Settled
  datatype Role = NoRole | Host | Player
  datatype Op = CreateRoom | JoinRoom | RegisterCandidate | GetPeers | HostReport
  datatype FailCode = StunFailed | ExchangeFailed | SessionFailed

  datatype TimerName = Retry | Poll | Deadline | Report | Punch(peer: PeerId)

  datatype Body =
    | CreateBody(nonce: nat, name: string)
    | JoinBody(code: string, nonce: nat, name: string)
    | RegisterBody(room: RoomId, peer: PeerId, token: Token, candidates: seq<Endpoint>)
    | PeersBody(room: RoomId, peer: PeerId, token: Token)
    | ReportBody(room: RoomId, peer: PeerId, token: Token, departed: seq<PeerId>, confirm: seq<PeerId>)

  datatype PeerView = PeerView(
    id: PeerId, vip: Vip, name: string, ready: bool, candidates: seq<Endpoint>, punchDelay: int, elapsed: int)

  datatype Action =
    | Submit(op: Op, body: Body)
    | StartStun | CancelStun
    | Arm(timer: TimerName, delay: nat)
    | Cancel(timer: TimerName)
    | PrintRoom(room: RoomId)
    | PrintFail(code: FailCode)
    | OpenSession(view: PeerView, role: Role, base: nat)
    | StartPunch(peer: PeerId)
    | LeaveRoom
    | AssignAddress(vip: Vip)
    | StartRoster(peer: PeerId, vip: Vip)
    | SetRosterPeers(peers: seq<PeerView>)
    | RecordAttempt(role: Role, other: Option<PeerId>)

  // ---------------------------------------------------------------- replies

  datatype Outcome<T> = Success(value: T) | Transient | RateLimited | Definite
  datatype Issued = Issued(room: RoomId, peer: PeerId, token: Token, vip: Vip)

  datatype Answer =
    | IssuedAnswer(issued: Outcome<Issued>)
    | RegisteredAnswer(rejected: Outcome<nat>)
    | PeersAnswer(peers: Outcome<seq<PeerView>>)
    | ReportAnswer(report: Outcome<seq<PeerView>>)

  datatype Reply = Reply(op: Op, answer: Answer)

  // The request of the attempt itself, retried until it is answered; the others are sent anew each time.
  predicate OwnOp(op: Op) {
    op.CreateRoom? || op.JoinRoom? || op.RegisterCandidate?
  }

  predicate Fits(op: Op, answer: Answer) {
    match op
    case CreateRoom => answer.IssuedAnswer?
    case JoinRoom => answer.IssuedAnswer?
    case RegisterCandidate => answer.RegisteredAnswer?
    case GetPeers => answer.PeersAnswer?
    case HostReport => answer.ReportAnswer?
  }

  predicate PunchReady(p: PeerView) {
    p.ready && p.candidates != []
  }

  datatype Command = HostCommand | JoinCommand(code: string) | LeaveCommand | NameCommand(name: string) | HelpCommand
  datatype Pending = Pending(op: Op, orphaned: bool, departed: seq<PeerId>)
  datatype Pair = Pair(name: string, active: bool)

  // ---------------------------------------------------------------- what the record means

  // Left, Delivered and Over note what becomes of the ids of those who left: one to report, the ones a
  // report carried, and the end of the attempt.  Ended notes the end of a pair.
  datatype Happening =
    | Did(action: Action) | Fired(timer: TimerName) | Answered(reply: Option<Reply>)
    | Left(peer: PeerId) | Delivered | Ended(peer: PeerId) | Over

  // The timer set after all this, or None if it ever refused to add a timer because it held one of
  // that name.
  function Timers(trace: seq<Happening>): Option<set<TimerName>> {
    if trace == [] then Some({})
    else
      var before := Timers(trace[..|trace| - 1]);
      if before.None? then None
      else
        match trace[|trace| - 1]
        case Did(Arm(t, _)) => if t in before.value then None else Some(before.value + {t})
        case Did(Cancel(t)) => Some(before.value - {t})
        case Fired(t) => Some(before.value - {t})
        case _ => before
  }

  // Requests under way after all this, or None if one was ever submitted while another was.
  function Outstanding(trace: seq<Happening>): Option<nat> {
    if trace == [] then Some(0)
    else
      var before := Outstanding(trace[..|trace| - 1]);
      if before.None? then None
      else
        match trace[|trace| - 1]
        case Did(Submit(_, _)) => if before.value == 0 then Some(1) else None
        case Answered(_) => Some(0)
        case _ => before
  }

  // The request last submitted.
  function LastSubmit(trace: seq<Happening>): Option<Action> {
    if trace == [] then None
    else
      match trace[|trace| - 1]
      case Did(Submit(op, body)) => Some(Submit(op, body))
      case _ => LastSubmit(trace[..|trace| - 1])
  }

  // The ids a request reports as departed.
  function Carried(body: Body): seq<PeerId> {
    if body.ReportBody? then body.departed else []
  }

  // What the lobby remembers of a request is what was submitted.
  predicate Remembers(p: Pending, a: Option<Action>) {
    a.Some? && a.value.Submit? && a.value.op == p.op && Carried(a.value.body) == p.departed
  }

  // A session the owner was told to open, for this peer as it was listed.
  datatype Opening = Opening(view: PeerView, role: Role)

  function NextOpened(open: map<PeerId, Opening>, h: Happening): map<PeerId, Opening> {
    match h
    case Did(OpenSession(view, role, _)) => open[view.id := Opening(view, role)]
    case Ended(peer) => open - {peer}
    case Over => map[]
    case _ => open
  }

  // The sessions opened and not ended after all this.
  function Opened(trace: seq<Happening>): map<PeerId, Opening> {
    if trace == [] then map[] else NextOpened(Opened(trace[..|trace| - 1]), trace[|trace| - 1])
  }

  // The active pairs are those sessions, each under the name and in the role it was opened with.
  ghost predicate PairsMatch(open: map<PeerId, Opening>, pairs: map<PeerId, Pair>, role: Role) {
    && (forall id :: id in open <==> id in pairs && pairs[id].active)
    && (forall id | id in open :: open[id].role == role && open[id].view.id == id && open[id].view.name == pairs[id].name)
  }

  lemma RecordGrows(trace: seq<Happening>, h: Happening)
    ensures Opened(trace + [h]) == NextOpened(Opened(trace), h)
    ensures Timers(trace).Some? ==>
              Timers(trace + [h]) ==
              match h
              case Did(Arm(t, _)) => if t in Timers(trace).value then None else Some(Timers(trace).value + {t})
              case Did(Cancel(t)) => Some(Timers(trace).value - {t})
              case Fired(t) => Some(Timers(trace).value - {t})
              case _ => Timers(trace)
    ensures Outstanding(trace).Some? ==>
              Outstanding(trace + [h]) ==
              match h
              case Did(Submit(_, _)) => if Outstanding(trace).value == 0 then Some(1) else None
              case Answered(_) => Some(0)
              case _ => Outstanding(trace)
    ensures LastSubmit(trace + [h]) == if h.Did? && h.action.Submit? then Some(h.action) else LastSubmit(trace)
  {
    assert (trace + [h])[..|trace|] == trace;
  }

  // A host report has just been answered with success, and carried these ids.
  predicate JustReported(trace: seq<Happening>, ids: seq<PeerId>) {
    && trace != [] && trace[|trace| - 1].Answered? && trace[|trace| - 1].reply.Some?
    && SuccessfulReport(trace[|trace| - 1].reply.value)
    && LastSubmit(trace).Some? && LastSubmit(trace).value.Submit? && ids == Carried(LastSubmit(trace).value.body)
  }

  predicate SuccessfulReport(reply: Reply) {
    reply.op == HostReport && reply.answer.ReportAnswer? && reply.answer.report.Success?
  }

  function IdsOf(ids: seq<PeerId>): set<PeerId> {
    set x | x in ids
  }

  // The ids still to be reported after one more happening; None for a report that does not carry all of
  // them, and for ids taken as delivered without a successful report that carried them.
  function NextUnreported(trace: seq<Happening>, ids: set<PeerId>, h: Happening): Option<set<PeerId>> {
    match h
    case Left(p) => Some(ids + {p})
    case Delivered =>
      var sent := LastSubmit(trace);
      if sent.Some? && sent.value.Submit? && JustReported(trace, Carried(sent.value.body))
      then Some(ids - IdsOf(Carried(sent.value.body))) else None
    case Over => Some({})
    case Did(Submit(_, body)) => if body.ReportBody? && IdsOf(body.departed) != ids then None else Some(ids)
    case _ => Some(ids)
  }

  function Unreported(trace: seq<Happening>): Option<set<PeerId>> {
    if trace == [] then Some({})
    else
      var before := trace[..|trace| - 1];
      var ids := Unreported(before);
      if ids.None? then None else NextUnreported(before, ids.value, trace[|trace| - 1])
  }

  lemma UnreportedGrows(trace: seq<Happening>, h: Happening)
    requires Unreported(trace).Some?
    ensures Unreported(trace + [h]) == NextUnreported(trace, Unreported(trace).value, h)
  {
    assert (trace + [h])[..|trace|] == trace;
  }

  // The actions in a record.
  function DeedsOf(trace: seq<Happening>): seq<Action> {
    if trace == [] then []
    else
      var h := trace[|trace| - 1];
      DeedsOf(trace[..|trace| - 1]) + if h.Did? then [h.action] else []
  }

  // The record is what it was, and then these actions, with notes of departures among them.
  ghost predicate Recorded(base: seq<Happening>, actions: seq<Action>, trace: seq<Happening>) {
    && base <= trace && DeedsOf(trace[|base|..]) == actions
    && forall k | |base| <= k < |trace| :: !trace[k].Answered? && !trace[k].Fired?
  }

  lemma RecordedNext(base: seq<Happening>, actions: seq<Action>, trace: seq<Happening>, h: Happening)
    requires Recorded(base, actions, trace) && !h.Answered? && !h.Fired?
    ensures Recorded(base, if h.Did? then actions + [h.action] else actions, trace + [h])
  {
    var more := (trace + [h])[|base|..];
    assert more[..|more| - 1] == trace[|base|..] && more[|more| - 1] == h;
  }

  lemma NothingRecorded(trace: seq<Happening>)
    ensures Recorded(trace, [], trace)
  {
  }

  // What neither arms, cancels nor submits anything, nor ends a departure, leaves all else as it was.
  lemma QuietGrows(trace: seq<Happening>, h: Happening)
    requires h.Did? && !h.action.Submit? && !h.action.Arm? && !h.action.Cancel?
    ensures Timers(trace).Some? ==> Timers(trace + [h]) == Timers(trace)
    ensures Outstanding(trace).Some? ==> Outstanding(trace + [h]) == Outstanding(trace)
    ensures LastSubmit(trace + [h]) == LastSubmit(trace)
    ensures Opened(trace + [h]) == NextOpened(Opened(trace), h)
    ensures Unreported(trace).Some? ==> Unreported(trace + [h]) == Unreported(trace)
  {
    RecordGrows(trace, h);
    if Unreported(trace).Some? {
      UnreportedGrows(trace, h);
    }
  }

  // A timer's going or an answer's coming is no departure.
  lemma StillUnreported(trace: seq<Happening>, h: Happening)
    requires h.Fired? || h.Answered? || (h.Did? && !h.action.Submit?)
    ensures Unreported(trace).Some? ==> Unreported(trace + [h]) == Unreported(trace)
  {
    if Unreported(trace).Some? {
      UnreportedGrows(trace, h);
    }
  }

  // At most one submit, and it is last.
  predicate SubmitLast(actions: seq<Action>) {
    forall i | 0 <= i < |actions| - 1 :: !actions[i].Submit?
  }

  function SetOf(names: seq<TimerName>): set<TimerName> {
    set t | t in names
  }

  function NoBody(): Body {
    PeersBody(0, 0, 0)
  }

  predicate AllIn(a: seq<PeerId>, b: seq<PeerId>) {
    forall x | x in a :: x in b
  }

  function Drop(ids: seq<PeerId>, gone: seq<PeerId>): (r: seq<PeerId>)
    ensures |r| <= |ids| && forall x :: x in r <==> x in ids && x !in gone
  {
    if ids == [] then []
    else if ids[0] in gone then Drop(ids[1..], gone)
    else [ids[0]] + Drop(ids[1..], gone)
  }

  function Forget(names: seq<TimerName>, t: TimerName): (r: seq<TimerName>)
    ensures |r| <= |names| && (t in names ==> |r| < |names|)
    ensures forall x :: x in r <==> x in names && x != t
  {
    if names == [] then []
    else if names[0] == t then Forget(names[1..], t)
    else [names[0]] + Forget(names[1..], t)
  }

  // All timers cancelled, the newest first.
  function CancelAll(names: seq<TimerName>): seq<Action>
    decreases |names|
  {
    if names == [] then [] else [Cancel(names[|names| - 1])] + CancelAll(Forget(names, names[|names| - 1]))
  }

  lemma CancelNext(out: seq<Action>, names: seq<TimerName>)
    requires names != []
    ensures var t := names[|names| - 1];
            out + CancelAll(names) == (out + [Cancel(t)]) + CancelAll(Forget(names, t))
  {
    hide Forget;
  }

  lemma CancelNone()
    ensures CancelAll([]) == []
  {
  }

  predicate NoneActive(pairs: map<PeerId, Pair>) {
    forall id | id in pairs :: !pairs[id].active
  }

  // The line kept of an attempt that ends before it had a session.
  function Unfinished(role: Role, stage: Stage, pairs: map<PeerId, Pair>, host: Option<PeerId>): seq<Action> {
    if role == Player && pairs == map[] then [RecordAttempt(Player, host)]
    else if role == Host && stage != Settled then [RecordAttempt(Host, None)]
    else []
  }

  // What ends an attempt: its timers, its STUN stage, its room.
  function Parting(names: seq<TimerName>, stage: Stage): seq<Action> {
    CancelAll(names) + (if stage == Stun then [CancelStun] else []) + [LeaveRoom]
  }

  // A host whose room is up loses the room, and the attempt with it once nobody is left; anyone else the attempt.
  predicate FailureEnds(role: Role, stage: Stage, ended: bool, pairs: map<PeerId, Pair>) {
    role == Host && stage == Settled ==> !ended && NoneActive(pairs)
  }

  function FailDeeds(code: FailCode, role: Role, stage: Stage, ended: bool, names: seq<TimerName>, pairs: map<PeerId, Pair>,
                     host: Option<PeerId>): seq<Action> {
    if !(role == Host && stage == Settled) then
      [PrintFail(code)] + Unfinished(role, stage, pairs, host) + Parting(names, stage)
    else RoomDeeds(ended, names, pairs)
  }

  // The end of a room is told once.
  function RoomDeeds(ended: bool, names: seq<TimerName>, pairs: map<PeerId, Pair>): seq<Action> {
    if ended then []
    else
      [PrintFail(ExchangeFailed)] + (if Report in names then [Cancel(Report)] else [])
      + (if NoneActive(pairs) then Parting(Forget(names, Report), Settled) else [])
  }

  // A report starts its period anew; a full room is reported on less often.
  function ReportTimer(names: seq<TimerName>, others: nat): seq<Action> {
    (if Report in names then [Cancel(Report)] else []) + [Arm(Report, if others >= MAX_OTHERS then REPORT_FULL_MS else REPORT_OPEN_MS)]
  }

  lemma FailDeedsJoin(out: seq<Action>, code: FailCode, role: Role, stage: Stage, ended: bool, names: seq<TimerName>,
                      pairs: map<PeerId, Pair>, host: Option<PeerId>)
    requires !(role == Host && stage == Settled)
    ensures out + [PrintFail(code)] + Unfinished(role, stage, pairs, host) + Parting(names, stage) ==
            out + FailDeeds(code, role, stage, ended, names, pairs, host)
  {
    hide Unfinished, Parting;
  }

  lemma RoomDeedsJoin(out: seq<Action>, names: seq<TimerName>, pairs: map<PeerId, Pair>)
    ensures out + RoomDeeds(true, names, pairs) == out
    ensures var told := out + [PrintFail(ExchangeFailed)] + if Report in names then [Cancel(Report)] else [];
            out + RoomDeeds(false, names, pairs) ==
            if NoneActive(pairs) then told + Parting(Forget(names, Report), Settled) else told
  {
    hide Parting, Forget, NoneActive;
    var told := out + [PrintFail(ExchangeFailed)] + if Report in names then [Cancel(Report)] else [];
    assert told + [] == told;
  }

  lemma {:induction false} CancelAllMeans(names: seq<TimerName>)
    ensures forall a | a in CancelAll(names) :: a.Cancel? && a.timer in names
    ensures forall t | t in names :: Cancel(t) in CancelAll(names)
    decreases |names|
  {
    if names != [] {
      var t := names[|names| - 1];
      CancelAllMeans(Forget(names, t));
      assert CancelAll(names) == [Cancel(t)] + CancelAll(Forget(names, t));
    }
  }

  lemma PartingMeans(names: seq<TimerName>, stage: Stage)
    ensures var d := Parting(names, stage);
            && d != [] && d[|d| - 1] == LeaveRoom
            && (forall t :: Cancel(t) in d <==> t in names)
            && (CancelStun in d <==> stage == Stun)
            && (forall a | a in d :: a.Cancel? || a.CancelStun? || a.LeaveRoom?)
  {
    CancelAllMeans(names);
    hide CancelAll;
  }

  // What a failure tells, cancels and leaves: an attempt that ends leaves nothing armed behind and leaves the room
  // last; a room that ends stops its reports; neither submits, arms or opens anything.
  lemma FailDeedsMean(code: FailCode, role: Role, stage: Stage, ended: bool, names: seq<TimerName>, pairs: map<PeerId, Pair>,
                      host: Option<PeerId>)
    ensures var d := FailDeeds(code, role, stage, ended, names, pairs, host);
            var ends := FailureEnds(role, stage, ended, pairs);
            var room := role == Host && stage == Settled;
            && (room && ended <==> d == [])
            && (d != [] ==> d[0] == PrintFail(if room then ExchangeFailed else code))
            && (ends ==> d[|d| - 1] == LeaveRoom && forall t :: Cancel(t) in d <==> t in names)
            && (!ends ==> LeaveRoom !in d && forall t | Cancel(t) in d :: t == Report && t in names)
            && (d != [] && Report in names ==> Cancel(Report) in d)
            && (CancelStun in d <==> stage == Stun)
            && (forall i | 1 <= i < |d| :: d[i].Cancel? || d[i].CancelStun? || d[i].LeaveRoom? || d[i].RecordAttempt?)
            && ((exists a :: a in d && a.RecordAttempt?) <==> !room && ((role == Player && pairs == map[]) || role == Host))
  {
    PartingMeans(names, stage);
    PartingMeans(Forget(names, Report), stage);
    hide Parting, Forget;
    var d := FailDeeds(code, role, stage, ended, names, pairs, host);
    if !(role == Host && stage == Settled) {
      var u := Unfinished(role, stage, pairs, host);
      assert d == [PrintFail(code)] + u + Parting(names, stage);
      if u != [] {
        assert u[0] in d;
      }
    }
  }

  // At most as many as a room has others.
  function WithDeparture(departed: seq<PeerId>, peer: PeerId): seq<PeerId> {
    if peer in departed || |departed| >= MAX_OTHERS then departed else departed + [peer]
  }

  // The end of a pair as it is told: its punch called off, and its failure if it is one.
  function EndTold(names: seq<TimerName>, peer: PeerId, failure: Option<FailCode>): seq<Action> {
    (if Punch(peer) in names then [Cancel(Punch(peer))] else []) + if failure.Some? then [PrintFail(failure.value)] else []
  }

  predicate IsListed(peers: seq<PeerView>, id: PeerId) {
    exists i :: 0 <= i < |peers| && peers[i].id == id
  }

  lemma ListedNext(peers: seq<PeerView>, i: nat)
    requires i < |peers|
    ensures forall id :: IsListed(peers[..i + 1], id) <==> IsListed(peers[..i], id) || id == peers[i].id
    ensures NotReady(peers[..i + 1]) == NotReady(peers[..i]) + if peers[i].ready then [] else [peers[i].id]
  {
    var upto := peers[..i + 1];
    assert upto[..i] == peers[..i] && upto[i] == peers[i];
    forall id
      ensures IsListed(upto, id) <==> IsListed(peers[..i], id) || id == peers[i].id
    {
      if IsListed(peers[..i], id) {
        var k :| 0 <= k < i && peers[..i][k].id == id;
        assert upto[k].id == id;
      }
      if IsListed(upto, id) && id != peers[i].id {
        var k :| 0 <= k < |upto| && upto[k].id == id;
        assert peers[..i][k].id == id;
      }
    }
  }

  lemma ListedAt(peers: seq<PeerView>, i: nat)
    requires i < |peers|
    ensures IsListed(peers, peers[i].id)
  {
  }

  // The peers to be confirmed with the next report.
  function NotReady(peers: seq<PeerView>): seq<PeerId> {
    if peers == [] then []
    else NotReady(peers[..|peers| - 1]) + if peers[|peers| - 1].ready then [] else [peers[|peers| - 1].id]
  }

  // A peer counts from when it was first listed.
  function SeenAt(seen: map<PeerId, nat>, id: PeerId, now: nat): nat {
    if id in seen then seen[id] else now
  }

  predicate ReadyBefore(peers: seq<PeerView>, n: nat, id: PeerId)
    requires n <= |peers|
  {
    exists k :: 0 <= k < n && PunchReady(peers[k]) && peers[k].id == id
  }

  lemma ReadyNext(peers: seq<PeerView>, i: nat)
    requires i < |peers|
    ensures forall id :: ReadyBefore(peers, i + 1, id) <==> ReadyBefore(peers, i, id) || (PunchReady(peers[i]) && id == peers[i].id)
  {
  }

  lemma AllReady(peers: seq<PeerView>)
    ensures forall i | 0 <= i < |peers| && PunchReady(peers[i]) :: ReadyBefore(peers, |peers|, peers[i].id) && IsListed(peers, peers[i].id)
  {
  }

  // The i-th listed peer gets a session: it is ready, new, and not listed before.
  predicate Opens(peers: seq<PeerView>, i: nat, known: map<PeerId, Pair>)
    requires i < |peers|
  {
    PunchReady(peers[i]) && peers[i].id !in known && !ReadyBefore(peers, i, peers[i].id)
  }

  function PunchOf(peer: PeerView): Action {
    if peer.punchDelay <= peer.elapsed then StartPunch(peer.id) else Arm(Punch(peer.id), peer.punchDelay - peer.elapsed)
  }

  // The sessions opened for the first n of a list.
  function OpenDeeds(peers: seq<PeerView>, n: nat, known: map<PeerId, Pair>, role: Role, seen: map<PeerId, nat>, now: nat): seq<Action>
    requires n <= |peers|
  {
    if n == 0 then []
    else
      OpenDeeds(peers, n - 1, known, role, seen, now)
      + if Opens(peers, n - 1, known)
        then [OpenSession(peers[n - 1], role, SeenAt(seen, peers[n - 1].id, now)), PunchOf(peers[n - 1])] else []
  }

  lemma OpenNone(out: seq<Action>, peers: seq<PeerView>, known: map<PeerId, Pair>, role: Role, seen: map<PeerId, nat>, now: nat)
    ensures out + OpenDeeds(peers, 0, known, role, seen, now) == out
    ensures forall id :: !ReadyBefore(peers, 0, id)
  {
  }

  lemma OpenNext(out: seq<Action>, peers: seq<PeerView>, i: nat, known: map<PeerId, Pair>, role: Role, seen: map<PeerId, nat>, now: nat)
    requires i < |peers|
    ensures var before := out + OpenDeeds(peers, i, known, role, seen, now);
            out + OpenDeeds(peers, i + 1, known, role, seen, now) ==
            if PunchReady(peers[i]) && peers[i].id !in known && !ReadyBefore(peers, i, peers[i].id) then
              before + [OpenSession(peers[i], role, SeenAt(seen, peers[i].id, now))]
                     + [if peers[i].punchDelay <= peers[i].elapsed then StartPunch(peers[i].id)
                        else Arm(Punch(peers[i].id), peers[i].punchDelay - peers[i].elapsed)]
            else before
  {
  }

  function IssuedDeeds(issued: Outcome<Issued>, role: Role, tries: nat, fail: seq<Action>): seq<Action> {
    if issued.Success? then
      [PrintRoom(issued.value.room), AssignAddress(issued.value.vip)]
      + (if role == Host then [Arm(Report, REPORT_OPEN_MS)] else []) + [StartStun]
    else if issued.Transient? && tries < MAX_TRIES then [Arm(Retry, RETRY_MS)]
    else fail
  }

  function RegisteredDeeds(rejected: Outcome<nat>, role: Role, tries: nat, own: PeerId, vip: Vip, fail: seq<Action>): seq<Action> {
    if rejected.Success? then
      if role == Host then [StartRoster(own, vip)] else [Arm(Poll, POLL_MS), Arm(Deadline, DEADLINE_MS)]
    else if rejected.Transient? && tries < MAX_TRIES then [Arm(Retry, RETRY_MS)]
    else fail
  }

  function PeersDeeds(peers: Outcome<seq<PeerView>>, names: seq<TimerName>, role: Role, base: nat, fail: seq<Action>): seq<Action> {
    if peers.Definite? || peers.RateLimited? then fail
    else if peers.Success? && |peers.value| == 1 && PunchReady(peers.value[0]) then
      (if Deadline in names then [Cancel(Deadline)] else []) + (if Poll in names then [Cancel(Poll)] else [])
      + [OpenSession(peers.value[0], role, base), PunchOf(peers.value[0])]
    else (if Poll in names then [Cancel(Poll)] else []) + [Arm(Poll, POLL_MS)]
  }

  function ReportDeeds(report: Outcome<seq<PeerView>>, stage: Stage, pairs: map<PeerId, Pair>, role: Role, seen: map<PeerId, nat>,
                       now: nat, fail: seq<Action>): seq<Action> {
    if report.Definite? then fail
    else if report.Success? && stage == Settled then
      [SetRosterPeers(report.value)] + OpenDeeds(report.value, |report.value|, pairs, role, seen, now)
    else []
  }

  lemma IssuedOut(out: seq<Action>, issued: Outcome<Issued>, role: Role, tries: nat)
    ensures issued.Success? ==>
              forall fail ::
                out + IssuedDeeds(issued, role, tries, fail) ==
                out + [PrintRoom(issued.value.room), AssignAddress(issued.value.vip)]
                    + (if role == Host then [Arm(Report, REPORT_OPEN_MS)] else []) + [StartStun]
  {
  }

  lemma PeersOut(out: seq<Action>, peers: Outcome<seq<PeerView>>, names: seq<TimerName>, role: Role, base: nat)
    ensures forall fail :: peers.Success? && |peers.value| == 1 && PunchReady(peers.value[0]) ==>
              var host := peers.value[0];
              out + PeersDeeds(peers, names, role, base, fail) ==
              out + (if Deadline in names then [Cancel(Deadline)] else []) + (if Poll in names then [Cancel(Poll)] else [])
                  + [OpenSession(host, role, base)]
                  + [if host.punchDelay <= host.elapsed then StartPunch(host.id) else Arm(Punch(host.id), host.punchDelay - host.elapsed)]
    ensures forall fail :: peers.Transient? || (peers.Success? && (|peers.value| != 1 || !PunchReady(peers.value[0]))) ==>
              out + PeersDeeds(peers, names, role, base, fail) ==
              out + (if Poll in names then [Cancel(Poll)] else []) + [Arm(Poll, POLL_MS)]
  {
  }

  lemma ReportOut(out: seq<Action>, report: Outcome<seq<PeerView>>, stage: Stage, pairs: map<PeerId, Pair>, role: Role,
                  seen: map<PeerId, nat>, now: nat)
    ensures forall fail :: report.Success? && stage == Settled ==>
              out + ReportDeeds(report, stage, pairs, role, seen, now, fail) ==
              out + [SetRosterPeers(report.value)] + OpenDeeds(report.value, |report.value|, pairs, role, seen, now)
    ensures forall fail :: !report.Definite? && !(report.Success? && stage == Settled) ==>
              out + ReportDeeds(report, stage, pairs, role, seen, now, fail) == out
  {
    hide OpenDeeds;
  }

  predicate Starts(command: Command, extra: bool, wellFormed: bool) {
    !extra && (command.HostCommand? || (command.JoinCommand? && wellFormed))
  }

  lemma FirstFailure(out: seq<Action>, r: Role)
    requires r != NoRole
    ensures out + FailDeeds(ExchangeFailed, r, Issuing, false, [], map[], None) ==
            out + [PrintFail(ExchangeFailed), RecordAttempt(r, None), LeaveRoom]
    ensures forall ended :: FailDeeds(ExchangeFailed, r, Issuing, ended, [], map[], None) == FailDeeds(ExchangeFailed, r, Issuing, false, [], map[], None)
  {
    CancelNone();
    hide CancelAll;
  }

  // ---------------------------------------------------------------- the object

  class Lobby {
    const accepts: Body -> bool
    var name: string
    var stage: Stage
    var role: Role
    var pending: Option<Pending>
    var roomId: RoomId
    var peerId: PeerId
    var localVip: Vip
    var token: Option<Token>
    var requestOp: Op
    var requestBody: Body
    var tries: nat
    var requestDue: bool
    var reporting: bool
    var reportDue: bool
    var roomEnded: bool
    var lastPeerCount: nat
    var confirm: seq<PeerId>
    var departed: seq<PeerId>
    var firstSeen: map<PeerId, nat>
    var pairs: map<PeerId, Pair>
    var hostPeer: Option<PeerId>
    var stunStarted: nat
    var armed: seq<TimerName>
    // The actions of the event being handled; the request it submits is held back to the end.
    var out: seq<Action>
    var held: Option<Action>
    ghost var trace: seq<Happening>
    // The record when this event's actions began.
    ghost var base: seq<Happening>

    // In step with the timer set and the channel, whatever the stage.
    ghost predicate InStep()
      reads this`armed, this`trace, this`base, this`pending, this`held, this`out, this`departed
    {
      && Recorded(base, out, trace)
      && Timers(trace) == Some(SetOf(armed))
      && Outstanding(trace) == Some(if pending.Some? && held.None? then 1 else 0)
      && (held.Some? ==> held.value.Submit? && pending.Some?)
      && (pending.Some? ==> Remembers(pending.value, if held.Some? then held else LastSubmit(trace)))
      && (forall i | 0 <= i < |out| :: !out[i].Submit?)
      && Kept()
    }

    // What is unreported is what the record says, and a report on its way carries all of it.
    ghost predicate Kept()
      reads this`trace, this`departed, this`held
    {
      && |departed| <= MAX_OTHERS && Unreported(trace) == Some(IdsOf(departed))
      && (held.Some? && held.value.Submit? && held.value.body.ReportBody? ==> held.value.body.departed == departed)
    }

    // The request of the attempt (not a poll nor a report) is under way, put off, or waiting for its
    // retry, and only one of these.
    ghost predicate OneTurn()
      reads this`pending, this`stage, this`requestDue, this`requestOp, this`armed
    {
      var own := pending.Some? && stage != InLobby && OwnOp(pending.value.op);
      && (own ==> !requestDue && Retry !in armed && pending.value.op == requestOp)
      && (requestDue ==> Retry !in armed)
      && (own || requestDue || Retry in armed ==>
            (stage == Issuing && requestOp in {CreateRoom, JoinRoom}) || (stage == Registering && requestOp == RegisterCandidate))
    }

    // The room's credentials are there when they are needed; in the lobby nothing of an attempt is left.
    ghost predicate Staged()
      reads this`stage, this`token, this`reporting, this`requestBody, this`requestOp, this`pending, this`roomEnded, this`armed,
            this`role, this`departed, this`pairs, this`requestDue, this`reportDue, this`hostPeer
    {
      && (stage in {Stun, Registering, Polling, Settled} ==> token.Some?)
      && (reporting ==> token.Some? && stage != InLobby)
      && !requestBody.ReportBody?
      && (pending.Some? ==> (pending.value.orphaned <==> stage == InLobby))
      && (pending.Some? && stage != InLobby && !OwnOp(pending.value.op) ==> token.Some?)
      && (pending.Some? && stage != InLobby && pending.value.op.GetPeers? ==> stage == Polling)
      && (roomEnded ==> !reporting && stage == Settled)
      && OneTurn()
      && (forall peer | Punch(peer) in armed :: peer in pairs && pairs[peer].active)
      && (stage != Settled ==> pairs == map[])
      && (reportDue ==> reporting) && (stage == Issuing ==> !reporting && forall t | t in armed :: t == Retry)
      && (Poll in armed || Deadline in armed ==> stage == Polling)
      && (stage == InLobby ==>
            armed == [] && role == NoRole && hostPeer.None? && departed == [] && pairs == map[] && !requestDue && !reportDue && !reporting)
    }

    // The active pairs are the sessions the record says are open.
    ghost predicate Paired()
      reads this`trace, this`pairs, this`role
    {
      PairsMatch(Opened(trace), pairs, role)
    }

    ghost predicate Valid()
      reads this
    {
      InStep() && Staged() && Paired()
    }

    constructor (own: string, accept: Body -> bool)
      ensures Valid() && stage == InLobby && pending.None? && trace == []
    {
      accepts, name, stage, role, pending := accept, own, InLobby, NoRole, None;
      roomId, peerId, localVip, token := 0, 0, 0, None;
      requestOp, requestBody, tries, requestDue := CreateRoom, NoBody(), 0, false;
      reporting, reportDue, roomEnded, lastPeerCount := false, false, false, 0;
      confirm, departed, firstSeen, pairs, hostPeer, stunStarted := [], [], map[], map[], None, 0;
      armed, out, held, trace, base := [], [], None, [], [];
      assert SetOf([]) == {} && IdsOf([]) == {};
    }

    // Main result: at every lobby, a peer is an active pair if and only if an action to open its session stands in the
    // record, in this role and with the view it was listed with, and its end does not follow.
    lemma ActiveMeansOpened(id: PeerId)
      requires Valid()
      ensures id in pairs && pairs[id].active <==> exists i: nat :: OpenSince(trace, i, id)
      ensures forall i: nat | OpenSince(trace, i, id) ::
                trace[i].action.role == role && trace[i].action.view.name == pairs[id].name
    {
      OpenMeansOpened(trace, id);
      hide InStep, Staged, Opened, OpenSince;
    }

    // ---------------------------------------------------------------- the batch

    method Push(a: Action)
      requires InStep() && !a.Submit? && !a.Arm? && !a.Cancel?
      modifies `out, `trace
      ensures InStep() && out == old(out) + [a]
      ensures Opened(trace) == NextOpened(old(Opened(trace)), Did(a))
    {
      hide Timers, Outstanding, LastSubmit, Recorded, Unreported, Opened;
      QuietGrows(trace, Did(a));
      RecordedNext(base, out, trace, Did(a));
      out := out + [a];
      trace := trace + [Did(a)];
    }

    method SubmitHeld(op: Op, body: Body, carried: seq<PeerId>)
      requires InStep() && pending.None? && held.None? && carried == Carried(body)
      requires body.ReportBody? ==> body.departed == departed
      modifies `pending, `held
      ensures InStep() && pending == Some(Pending(op, false, carried)) && held == Some(Submit(op, body))
    {
      hide Timers, Outstanding, LastSubmit, Recorded, Unreported, Opened;
      pending := Some(Pending(op, false, carried));
      held := Some(Submit(op, body));
    }

    method Begin()
      requires InStep() && held.None?
      modifies `out, `base
      ensures InStep() && out == [] && base == trace
    {
      hide Timers, Outstanding, LastSubmit, Recorded, Unreported, Opened;
      NothingRecorded(trace);
      out := [];
      base := trace;
    }

    method Finish() returns (actions: seq<Action>)
      requires InStep()
      modifies `out, `held, `trace, `base
      ensures InStep() && held.None? && SubmitLast(actions)
      ensures Opened(trace) == old(Opened(trace))
      ensures Recorded(old(base), actions, trace)
      ensures actions == old(out) + if old(held).Some? then [old(held).value] else []
      ensures old(held).None? ==> forall a | a in actions :: !a.Submit?
    {
      hide Timers, Outstanding, LastSubmit, Recorded, Unreported, Opened;
      actions := out;
      if held.Some? {
        RecordGrows(trace, Did(held.value));
        UnreportedGrows(trace, Did(held.value));
        RecordedNext(base, actions, trace, Did(held.value));
        actions := actions + [held.value];
        trace := trace + [Did(held.value)];
        held := None;
      }
      NothingRecorded(trace);
      out := [];
      base := trace;
    }

    method Settle(reply: Option<Reply>)
      requires InStep() && pending.Some? && held.None? && out == []
      modifies `pending, `trace, `base
      ensures InStep() && pending.None? && trace == base == old(trace) + [Answered(reply)]
      ensures Opened(trace) == old(Opened(trace))
      ensures reply.Some? && SuccessfulReport(reply.value) ==> JustReported(trace, old(pending).value.departed)
    {
      hide Timers, Outstanding, LastSubmit, Recorded, Unreported, Opened;
      RecordGrows(trace, Answered(reply));
      StillUnreported(trace, Answered(reply));
      pending := None;
      trace := trace + [Answered(reply)];
      base := trace;
      NothingRecorded(trace);
    }

    // ---------------------------------------------------------------- timers

    method Release(t: TimerName)
      requires InStep() && t in armed && out == []
      modifies `armed, `trace, `base
      ensures InStep() && armed == Forget(old(armed), t) && trace == base == old(trace) + [Fired(t)]
      ensures Opened(trace) == old(Opened(trace))
    {
      hide Timers, Outstanding, LastSubmit, Recorded, Unreported, Opened;
      RecordGrows(trace, Fired(t));
      StillUnreported(trace, Fired(t));
      armed := Forget(armed, t);
      trace := trace + [Fired(t)];
      base := trace;
      NothingRecorded(trace);
      assert SetOf(armed) == SetOf(old(armed)) - {t};
    }

    method ArmTimer(t: TimerName, delay: nat)
      requires InStep()
      modifies `armed, `out, `trace
      ensures InStep() && forall x :: x in armed <==> x in old(armed) || x == t
      ensures out == old(out) + (if t in old(armed) then [Cancel(t)] else []) + [Arm(t, delay)]
      ensures Opened(trace) == old(Opened(trace))
    {
      hide Timers, Outstanding, LastSubmit, Recorded, Unreported, Opened;
      if t in armed {
        RecordGrows(trace, Did(Cancel(t)));
        StillUnreported(trace, Did(Cancel(t)));
        RecordedNext(base, out, trace, Did(Cancel(t)));
        out := out + [Cancel(t)];
        trace := trace + [Did(Cancel(t))];
      } else {
        armed := armed + [t];
      }
      RecordGrows(trace, Did(Arm(t, delay)));
      StillUnreported(trace, Did(Arm(t, delay)));
      RecordedNext(base, out, trace, Did(Arm(t, delay)));
      out := out + [Arm(t, delay)];
      trace := trace + [Did(Arm(t, delay))];
      assert SetOf(armed) == SetOf(old(armed)) + {t};
      assert SetOf(old(armed)) - {t} + {t} == SetOf(old(armed)) + {t};
    }

    method Disarm(t: TimerName)
      requires InStep()
      modifies `armed, `out, `trace
      ensures InStep() && armed == Forget(old(armed), t) && (t !in old(armed) ==> armed == old(armed))
      ensures out == old(out) + (if t in old(armed) then [Cancel(t)] else [])
      ensures Opened(trace) == old(Opened(trace))
    {
      hide Timers, Outstanding, LastSubmit, Recorded, Unreported, Opened;
      if t !in armed {
        ForgetNothing(armed, t);
        return;
      }
      RecordGrows(trace, Did(Cancel(t)));
      StillUnreported(trace, Did(Cancel(t)));
      RecordedNext(base, out, trace, Did(Cancel(t)));
      armed := Forget(armed, t);
      out := out + [Cancel(t)];
      trace := trace + [Did(Cancel(t))];
      assert SetOf(armed) == SetOf(old(armed)) - {t};
    }

    method DisarmAll()
      requires InStep()
      modifies `armed, `out, `trace
      ensures InStep() && armed == [] && out == old(out) + CancelAll(old(armed))
      ensures Opened(trace) == old(Opened(trace))
    {
      hide InStep, Opened, CancelAll, Forget;
      assert out + CancelAll(armed) == old(out) + CancelAll(old(armed));
      while armed != []
        invariant InStep() && Opened(trace) == old(Opened(trace))
        invariant out + CancelAll(armed) == old(out) + CancelAll(old(armed))
        decreases |armed|
      {
        ghost var names, before := armed, out;
        var t := armed[|armed| - 1];
        Disarm(t);
        CancelNext(before, names);
      }
      CancelNone();
      assert out + [] == out;
    }

    // A timer of the attempt other than its retry stands for nothing else.
    method Hold(t: TimerName, delay: nat)
      requires Valid() && stage != InLobby && t != Retry && stage != Issuing
      requires t.Punch? ==> t.peer in pairs && pairs[t.peer].active
      requires t.Poll? || t.Deadline? ==> stage == Polling
      modifies `armed, `out, `trace
      ensures Valid() && forall x :: x in armed <==> x in old(armed) || x == t
      ensures out == old(out) + (if t in old(armed) then [Cancel(t)] else []) + [Arm(t, delay)]
    {
      hide InStep, Opened, PairsMatch;
      ArmTimer(t, delay);
    }

    method LetGo(t: TimerName)
      requires Valid()
      modifies `armed, `out, `trace
      ensures Valid() && armed == Forget(old(armed), t)
      ensures out == old(out) + (if t in old(armed) then [Cancel(t)] else [])
    {
      hide InStep, Opened, PairsMatch;
      Disarm(t);
    }

    // ---------------------------------------------------------------- ending

    method RecordUnfinished()
      requires InStep()
      modifies `out, `trace
      ensures InStep() && Opened(trace) == old(Opened(trace))
      ensures out == old(out) + Unfinished(role, stage, pairs, hostPeer)
    {
      hide InStep, Opened;
      if !(role == Player && pairs == map[]) && !(role == Host && stage != Settled) {
        assert out + [] == out;
      }
      if role == Player && pairs == map[] {
        Push(RecordAttempt(role, hostPeer));
      } else if role == Host && stage != Settled {
        Push(RecordAttempt(role, None));
      }
    }

    method ClearAttempt()
      modifies `requestDue, `reportDue, `reporting, `requestBody, `tries, `roomId, `peerId, `token, `lastPeerCount, `confirm,
               `departed, `firstSeen, `roomEnded, `localVip, `stunStarted, `hostPeer, `pairs, `role, `stage
      ensures stage == InLobby && role == NoRole && departed == [] && pairs == map[] && hostPeer.None?
      ensures !requestDue && !reportDue && !reporting && !roomEnded && !requestBody.ReportBody?
    {
      hide Timers, Outstanding, LastSubmit, Recorded, Unreported, Opened;
      requestDue, reportDue, reporting, requestBody, tries := false, false, false, NoBody(), 0;
      roomId, peerId, token, lastPeerCount, confirm := 0, 0, None, 0, [];
      departed, firstSeen, roomEnded, localVip, stunStarted := [], map[], false, 0, 0;
      hostPeer, pairs, role, stage := None, map[], NoRole, InLobby;
    }

    method EndAttempt(leave: bool)
      requires InStep() && held.None?
      modifies this
      ensures base == old(base)
      ensures Valid() && stage == InLobby && pairs == map[]
      ensures pending == if old(pending).Some? then Some(old(pending).value.(orphaned := true)) else None
      ensures held == old(held) && name == old(name)
      ensures leave ==> out == old(out) + Parting(old(armed), old(stage))
      ensures !leave ==> out == old(out) + CancelAll(old(armed)) + if old(stage) == Stun then [CancelStun] else []
    {
      hide InStep, Staged, PairsMatch, Opened, CancelAll;
      DisarmAll();
      if stage == Stun {
        Push(CancelStun);
      }
      Orphan();
      if leave {
        Push(LeaveRoom);
      }
    }

    // What is under way is let go, and nothing of the attempt is left.
    method Orphan()
      requires InStep() && armed == [] && held.None?
      modifies `trace, `pending, `requestDue, `reportDue, `reporting, `requestBody, `tries, `roomId, `peerId, `token, `lastPeerCount,
               `confirm, `departed, `firstSeen, `roomEnded, `localVip, `stunStarted, `hostPeer, `pairs, `role, `stage
      ensures Valid() && stage == InLobby && pairs == map[]
      ensures pending == if old(pending).Some? then Some(old(pending).value.(orphaned := true)) else None
    {
      hide Timers, Outstanding, LastSubmit, Recorded, Unreported, Opened;
      if pending.Some? {
        pending := Some(pending.value.(orphaned := true));
      }
      RecordGrows(trace, Over);
      UnreportedGrows(trace, Over);
      assert IdsOf([]) == {};
      RecordedNext(base, out, trace, Over);
      trace := trace + [Over];
      ClearAttempt();
      assert Opened(trace) == map[];
    }

    // The room ended on the server; sessions that are left go on.
    method EndRoom()
      requires Valid() && stage == Settled && held.None? && role == Host
      modifies this
      ensures base == old(base)
      ensures Valid() && held == old(held) && (old(pending).None? ==> pending.None?) && name == old(name)
      ensures if !old(roomEnded) && NoneActive(old(pairs)) then stage == InLobby else KeepsRoom(old(departed), old(pairs), old(role))
      ensures stage != InLobby ==> requestDue == old(requestDue)
      ensures out == old(out) + RoomDeeds(old(roomEnded), old(armed), old(pairs))
    {
      hide InStep, Staged, Forget, CancelAll, Parting, RoomDeeds, NoneActive, PairsMatch, Opened;
      RoomDeedsJoin(out, armed, pairs);
      if roomEnded {
        RoomEndedIsQuiet();
        return;
      }
      StopReporting();
      Push(PrintFail(ExchangeFailed));
      LetGo(Report);
      if NoneActive(pairs) {
        EndAttempt(true);
      }
    }

    // The room is over, the sessions are not.
    predicate KeepsRoom(left: seq<PeerId>, those: map<PeerId, Pair>, r: Role)
      reads `stage, `roomEnded, `reporting, `departed, `pairs, `role
    {
      stage == Settled && roomEnded && !reporting && departed == left && pairs == those && role == r
    }

    lemma RoomEndedIsQuiet()
      requires Staged()
      ensures roomEnded ==> !reporting
    {
    }

    method StopReporting()
      requires Valid() && stage == Settled
      modifies `roomEnded, `reporting, `reportDue
      ensures Valid() && roomEnded && !reporting
    {
      hide InStep, Paired;
      roomEnded := true;
      reporting, reportDue := false, false;
    }

    // A host that has its room up loses the room; anyone else loses the attempt.
    method FailWith(code: FailCode)
      requires Valid() && held.None? && stage != InLobby
      modifies this
      ensures base == old(base)
      ensures Valid() && held == old(held) && (old(pending).None? ==> pending.None?) && name == old(name)
      ensures out == old(out) + FailDeeds(code, old(role), old(stage), old(roomEnded), old(armed), old(pairs), old(hostPeer))
      ensures if FailureEnds(old(role), old(stage), old(roomEnded), old(pairs)) then stage == InLobby
              else KeepsRoom(old(departed), old(pairs), old(role))
      ensures stage != InLobby ==> requestDue == old(requestDue)
    {
      hide InStep, Staged, CancelAll, Forget, Unfinished, Parting, NoneActive, PairsMatch, KeepsRoom, RoomDeeds, Opened;
      if role == Host && stage == Settled {
        EndRoom();
        return;
      }
      FailDeedsJoin(out, code, role, stage, roomEnded, armed, pairs, hostPeer);
      Push(PrintFail(code));
      RecordUnfinished();
      EndAttempt(true);
    }

    // ---------------------------------------------------------------- sending

    // The request of the attempt goes out now, or when the one under way is answered.
    method SendOrDefer()
      requires Valid() && held.None? && Retry !in armed
      requires pending.Some? ==> !OwnOp(pending.value.op)
      requires (stage == Issuing && requestOp in {CreateRoom, JoinRoom})
               || (stage == Registering && requestOp == RegisterCandidate)
      modifies `requestDue, `tries, `pending, `held
      ensures Valid()
      ensures if old(pending).Some? then pending == old(pending) && held.None? && requestDue && tries == old(tries)
              else held == Some(Submit(requestOp, requestBody)) && pending.Some? && !requestDue && tries == old(tries) + 1
    {
      hide InStep, Paired;
      if pending.Some? {
        requestDue := true;
        return;
      }
      requestDue := false;
      tries := tries + 1;
      SubmitHeld(requestOp, requestBody, []);
    }

    function ReportNow(): Body
      requires token.Some?
      reads `roomId, `peerId, `token, `departed, `confirm
    {
      ReportBody(roomId, peerId, token.value, departed, confirm)
    }

    // Every report carries all that is unreported.  One that is put off goes out after the next answer, and one that
    // cannot be written fails.
    method SendHostReport()
      requires Valid() && reporting && held.None?
      modifies this
      ensures base == old(base)
      ensures Valid()
      ensures old(pending).Some? ==> stage == old(stage) && reportDue && held.None? && pending == old(pending) && out == old(out)
      ensures old(pending).None? && accepts(old(ReportNow())) ==>
                && held == Some(Submit(HostReport, old(ReportNow()))) && pending.Some? && !reportDue
                && token.Some? && ReportNow() == old(ReportNow()) && stage == old(stage) && out == old(out) + ReportTimer(old(armed), old(lastPeerCount))
      ensures old(pending).None? && !accepts(old(ReportNow())) ==>
                && held.None? && pending.None?
                && out == old(out) + FailDeeds(ExchangeFailed, old(role), old(stage), old(roomEnded), old(armed), old(pairs), old(hostPeer))
                && if FailureEnds(old(role), old(stage), old(roomEnded), old(pairs)) then stage == InLobby
                   else KeepsRoom(old(departed), old(pairs), old(role))
      ensures stage != InLobby ==> departed == old(departed) && pairs == old(pairs) && role == old(role)
      ensures old(pending).Some? || accepts(old(ReportNow())) ==> roomEnded == old(roomEnded) && reporting
    {
      hide InStep, Staged, Paired, FailDeeds, RoomDeeds, Forget, NoneActive;
      TokenIsThere();
      if pending.Some? {
        PutOff();
        return;
      }
      ClearDue();
      var body := ReportNow();
      if !accepts(body) {
        FailWith(ExchangeFailed);
        return;
      }
      SubmitReport(body);
    }

    lemma TokenIsThere()
      requires Staged() && reporting
      ensures token.Some? && stage != InLobby
    {
    }

    method PutOff()
      requires Valid() && reporting
      modifies `reportDue
      ensures Valid() && reportDue
    {
      hide InStep, Paired;
      reportDue := true;
    }

    method ClearDue()
      requires Valid()
      modifies `reportDue
      ensures Valid() && !reportDue
    {
      hide InStep, Paired;
      reportDue := false;
    }

    // The next report is a period away.
    method SubmitReport(body: Body)
      requires Valid() && reporting && pending.None? && held.None? && body.ReportBody? && body.departed == departed
      modifies `armed, `out, `trace, `pending, `held
      ensures Valid() && held == Some(Submit(HostReport, body)) && pending.Some?
      ensures out == old(out) + ReportTimer(old(armed), lastPeerCount)
    {
      hide InStep, Forget, Paired;
      assert stage != InLobby && token.Some?;
      LetGo(Report);
      Hold(Report, if lastPeerCount >= MAX_OTHERS then REPORT_FULL_MS else REPORT_OPEN_MS);
      hide OneTurn;
      SubmitHeld(HostReport, body, departed);
    }

    // What was put off while a request was under way goes out once it is answered: the attempt's own request first.
    method RunDue()
      requires Valid() && held.None?
      modifies this
      ensures base == old(base)
      ensures Valid() && (old(stage) == InLobby ==> stage == InLobby) && (reporting ==> old(reporting))
      ensures stage != InLobby ==> departed == old(departed) && pairs == old(pairs) && role == old(role)
      ensures old(pending).Some? || old(stage) == InLobby || !(old(requestDue) || (old(reportDue) && old(reporting))) ==>
                out == old(out) && held.None? && stage == old(stage)
      ensures old(pending).None? && old(stage) != InLobby && old(requestDue) ==>
                out == old(out) && held == Some(Submit(old(requestOp), old(requestBody))) && stage == old(stage)
      ensures old(pending).None? && old(stage) != InLobby && !old(requestDue) && old(reportDue) && old(reporting) && old(token).Some? ==>
                if accepts(old(ReportNow())) then
                  && held == Some(Submit(HostReport, old(ReportNow()))) && stage == old(stage)
                  && token.Some? && ReportNow() == old(ReportNow())
                  && out == old(out) + ReportTimer(old(armed), old(lastPeerCount))
                else
                  && held.None? && (stage == InLobby || !reporting)
                  && out == old(out) + FailDeeds(ExchangeFailed, old(role), old(stage), old(roomEnded), old(armed), old(pairs), old(hostPeer))
    {
      hide InStep, Paired, FailDeeds, RoomDeeds, ReportTimer, ReportNow;
      if pending.Some? || stage == InLobby {
        return;
      }
      if requestDue {
        SendOrDefer();
        return;
      }
      if reportDue && reporting {
        SendHostReport();
      }
    }

    method RetryOrFail()
      requires Valid() && pending.None? && held.None? && !requestDue && Retry !in armed
      requires (stage == Issuing && requestOp in {CreateRoom, JoinRoom}) || (stage == Registering && requestOp == RegisterCandidate)
      modifies this
      ensures base == old(base)
      ensures Valid() && held == old(held) && pending.None?
      ensures if old(tries) < MAX_TRIES then
                && out == old(out) + [Arm(Retry, RETRY_MS)] && stage == old(stage) && departed == old(departed)
                && role == old(role) && !requestDue && reportDue == old(reportDue)
              else
                && stage == InLobby
                && out == old(out) + FailDeeds(ExchangeFailed, old(role), old(stage), old(roomEnded), old(armed), old(pairs), old(hostPeer))
    {
      hide InStep, FailDeeds, Paired;
      if tries < MAX_TRIES {
        WaitToRetry();
        return;
      }
      FailWith(ExchangeFailed);
    }

    method WaitToRetry()
      requires Valid() && pending.None? && held.None? && !requestDue && Retry !in armed
      requires (stage == Issuing && requestOp in {CreateRoom, JoinRoom}) || (stage == Registering && requestOp == RegisterCandidate)
      modifies `armed, `out, `trace
      ensures Valid() && out == old(out) + [Arm(Retry, RETRY_MS)]
    {
      hide InStep, PairsMatch, Opened;
      ArmTimer(Retry, RETRY_MS);
    }

    // ---------------------------------------------------------------- commands

    function FirstBody(r: Role, room: string, nonce: nat): Body
      reads `name
    {
      if r == Host then CreateBody(nonce, name) else JoinBody(room, nonce, name)
    }

    method StartAttempt(r: Role, room: string, nonce: Option<nat>)
      requires Valid() && stage == InLobby && pending.None? && held.None? && r != NoRole
      modifies this
      ensures base == old(base) && name == old(name)
      ensures Valid()
      ensures if nonce.Some? && accepts(old(FirstBody(r, room, nonce.value))) then
                && held == Some(Submit(if r == Host then CreateRoom else JoinRoom, old(FirstBody(r, room, nonce.value))))
                && stage == Issuing && role == r && out == old(out) && departed == old(departed)
              else
                && held.None? && stage == InLobby && pending.None?
                && out == old(out) + [PrintFail(ExchangeFailed), RecordAttempt(r, None), LeaveRoom]
    {
      hide InStep, FailDeeds;
      Enter(r);
      FirstFailure(out, r);
      if nonce.None? {
        FailWith(ExchangeFailed);
        return;
      }
      var body := FirstBody(r, room, nonce.value);
      if !accepts(body) {
        FailWith(ExchangeFailed);
        return;
      }
      TakeFirst(body);
      hide Staged, Paired;
      SendOrDefer();
    }

    method Enter(r: Role)
      requires Valid() && stage == InLobby && pending.None? && r != NoRole
      modifies `role, `stage, `requestOp
      ensures Valid() && role == r && stage == Issuing && requestOp == (if r == Host then CreateRoom else JoinRoom)
      ensures armed == [] && pairs == map[] && hostPeer.None?
    {
      hide InStep;
      assert Opened(trace) == map[];
      hide Opened;
      role := r;
      stage := Issuing;
      requestOp := if r == Host then CreateRoom else JoinRoom;
    }

    method TakeFirst(body: Body)
      requires Valid() && stage == Issuing && pending.None? && !body.ReportBody?
      modifies `requestBody, `tries
      ensures Valid() && requestBody == body && tries == 0
    {
      hide InStep, Paired;
      requestBody := body;
      tries := 0;
    }

    // extra: words were left over; wellFormed: the argument passed its format check.
    method OnCommand(command: Command, extra: bool, wellFormed: bool, nonce: Option<nat>) returns (actions: seq<Action>)
      requires Valid() && held.None?
      modifies this
      ensures Recorded(old(trace), actions, trace)
      ensures Valid() && held.None? && SubmitLast(actions)
      ensures stage == InLobby || departed == old(departed)
      ensures Starts(command, extra, wellFormed) && old(stage) == InLobby && old(pending).None? ==>
                var r := if command.HostCommand? then Host else Player;
                var room := if command.JoinCommand? then command.code else [];
                if nonce.Some? && accepts(old(FirstBody(r, room, nonce.value))) then
                  && actions == [Submit(if r == Host then CreateRoom else JoinRoom, old(FirstBody(r, room, nonce.value)))]
                  && stage == Issuing && role == r
                else actions == [PrintFail(ExchangeFailed), RecordAttempt(r, None), LeaveRoom] && stage == InLobby
      ensures command.LeaveCommand? && old(stage) != InLobby && !extra ==>
                && actions == Unfinished(old(role), old(stage), old(pairs), old(hostPeer)) + Parting(old(armed), old(stage))
                && stage == InLobby
      ensures (Starts(command, extra, wellFormed) && old(stage) == InLobby && old(pending).None?)
              || (command.LeaveCommand? && old(stage) != InLobby && !extra)
              || (actions == [] && stage == old(stage) && pending == old(pending) && pairs == old(pairs))
      ensures name == if command.NameCommand? && old(stage) == InLobby && !extra && wellFormed then command.name else old(name)
    {
      hide InStep, Staged, PairsMatch, Opened, Unfinished, Parting;
      Begin();
      match command {
        case HelpCommand =>
        case LeaveCommand =>
          if stage != InLobby && !extra {
            RecordUnfinished();
            EndAttempt(true);
          }
        case NameCommand(n) =>
          if stage == InLobby && !extra && wellFormed {
            name := n;
          }
        case HostCommand =>
          if stage == InLobby && pending.None? && !extra {
            StartAttempt(Host, [], nonce);
          }
        case JoinCommand(room) =>
          if stage == InLobby && pending.None? && !extra && wellFormed {
            StartAttempt(Player, room, nonce);
          }
      }
      actions := Finish();
    }

    // ---------------------------------------------------------------- pairs

    // A pair is opened with the session to open, and its punch at once or when its delay is over.
    method OpenPair(peer: PeerView, base: nat)
      requires Valid() && stage == Settled && (peer.id !in pairs || !pairs[peer.id].active)
      modifies `pairs, `out, `trace, `armed
      ensures Valid() && pairs == old(pairs)[peer.id := Pair(peer.name, true)]
      ensures out == old(out) + [OpenSession(peer, role, base)]
                     + [if peer.punchDelay <= peer.elapsed then StartPunch(peer.id)
                        else Arm(Punch(peer.id), peer.punchDelay - peer.elapsed)]
      ensures forall t :: t in armed <==> t in old(armed) || (t == Punch(peer.id) && peer.punchDelay > peer.elapsed)
    {
      hide InStep, Opened;
      AddPair(peer, base);
      hide PairsMatch, Staged;
      var delay := peer.punchDelay - peer.elapsed;
      if delay <= 0 {
        Push(StartPunch(peer.id));
      } else {
        Hold(Punch(peer.id), delay);
      }
    }

    method AddPair(peer: PeerView, base: nat)
      requires Valid() && stage == Settled && (peer.id !in pairs || !pairs[peer.id].active)
      modifies `pairs, `out, `trace
      ensures Valid() && pairs == old(pairs)[peer.id := Pair(peer.name, true)]
      ensures out == old(out) + [OpenSession(peer, role, base)] && Punch(peer.id) !in armed
    {
      hide InStep, Opened, OneTurn;
      pairs := pairs[peer.id := Pair(peer.name, true)];
      Push(OpenSession(peer, role, base));
    }

    method NoteDeparture(peer: PeerId)
      requires Valid() && stage != InLobby && held.None?
      modifies `departed, `trace
      ensures Valid() && departed == WithDeparture(old(departed), peer)
    {
      hide Timers, Outstanding, LastSubmit, Recorded, Unreported, Opened, Remembers, PairsMatch, OneTurn;
      if peer !in departed && |departed| < MAX_OTHERS {
        RecordGrows(trace, Left(peer));
        UnreportedGrows(trace, Left(peer));
        RecordedNext(base, out, trace, Left(peer));
        departed := departed + [peer];
        trace := trace + [Left(peer)];
        assert IdsOf(departed) == IdsOf(old(departed)) + {peer};
      }
    }

    // What a successful report carried is reported.
    method NoteDelivered(carried: seq<PeerId>)
      requires Valid() && stage != InLobby && held.None? && JustReported(trace, carried)
      modifies `departed, `trace
      ensures Valid() && departed == Drop(old(departed), carried)
    {
      hide Timers, Outstanding, LastSubmit, Recorded, Unreported, Opened, Remembers, PairsMatch, OneTurn;
      RecordGrows(trace, Delivered);
      UnreportedGrows(trace, Delivered);
      RecordedNext(base, out, trace, Delivered);
      departed := Drop(departed, carried);
      trace := trace + [Delivered];
      assert IdsOf(departed) == IdsOf(old(departed)) - IdsOf(carried);
    }

    // The pair is over: its punch is called off, and the record says so.
    method StopPair(peer: PeerId)
      requires Valid() && peer in pairs && pairs[peer].active
      modifies `pairs, `trace, `armed, `out
      ensures Valid() && stage != InLobby && pairs == old(pairs)[peer := old(pairs)[peer].(active := false)]
      ensures armed == Forget(old(armed), Punch(peer))
      ensures out == old(out) + if Punch(peer) in old(armed) then [Cancel(Punch(peer))] else []
    {
      hide InStep, Staged, Opened, PairsMatch;
      LetGo(Punch(peer));
      Deactivate(peer);
    }

    method Deactivate(peer: PeerId)
      requires Valid() && peer in pairs && pairs[peer].active && Punch(peer) !in armed
      modifies `pairs, `trace
      ensures Valid() && stage != InLobby && pairs == old(pairs)[peer := old(pairs)[peer].(active := false)]
    {
      hide InStep, Opened, OneTurn;
      NotePairEnd(peer);
      pairs := pairs[peer := pairs[peer].(active := false)];
    }

    method NotePairEnd(peer: PeerId)
      requires InStep()
      modifies `trace
      ensures InStep() && Opened(trace) == old(Opened(trace)) - {peer}
    {
      hide Timers, Outstanding, LastSubmit, Recorded, Unreported, Opened;
      RecordGrows(trace, Ended(peer));
      if Unreported(trace).Some? {
        UnreportedGrows(trace, Ended(peer));
      }
      RecordedNext(base, out, trace, Ended(peer));
      trace := trace + [Ended(peer)];
    }

    // A host stays and reports who left; a player's attempt ends.
    method ClosePair(peer: PeerId, failure: Option<FailCode>)
      requires Valid() && held.None?
      modifies this
      ensures base == old(base)
      ensures Valid()
      ensures stage == InLobby || departed == if peer in old(pairs) && old(pairs)[peer].active then WithDeparture(old(departed), peer) else old(departed)
      ensures !(peer in old(pairs) && old(pairs)[peer].active) ==>
                out == old(out) && held.None? && pairs == old(pairs) && stage == old(stage)
      ensures peer in old(pairs) && old(pairs)[peer].active ==>
                (peer in pairs ==> !pairs[peer].active)
                && old(out) + EndTold(old(armed), peer, failure) <= out
      ensures peer in old(pairs) && old(pairs)[peer].active && old(role) == Player ==>
                && stage == InLobby && held.None?
                && out == old(out) + EndTold(old(armed), peer, failure) + Parting(Forget(old(armed), Punch(peer)), old(stage))
      ensures peer in old(pairs) && old(pairs)[peer].active && old(role) != Player && !old(reporting) ==>
                && held.None?
                && out == old(out) + EndTold(old(armed), peer, failure)
                          + (if stage == InLobby then Parting(Forget(old(armed), Punch(peer)), old(stage)) else [])
                && (stage == InLobby <==> old(roomEnded) && NoneActive(old(pairs)[peer := old(pairs)[peer].(active := false)]))
      ensures peer in old(pairs) && old(pairs)[peer].active && old(role) != Player && old(reporting) && old(token).Some? ==>
                var body := ReportBody(old(roomId), old(peerId), old(token).value, WithDeparture(old(departed), peer), old(confirm));
                var told := old(out) + EndTold(old(armed), peer, failure);
                if old(pending).Some? then held.None? && out == told && reportDue
                else if accepts(body) then
                  held == Some(Submit(HostReport, body)) && out == told + ReportTimer(Forget(old(armed), Punch(peer)), old(lastPeerCount))
                else held.None?
    {
      hide InStep, Staged, Forget, PairsMatch, Opened, FailDeeds, Parting, ReportTimer, NoneActive, WithDeparture;
      if peer !in pairs || !pairs[peer].active {
        return;
      }
      TellEnd(peer, failure);
      if role == Player {
        EndAttempt(true);
        return;
      }
      NoteDeparture(peer);
      AfterDeparture();
    }

    method TellEnd(peer: PeerId, failure: Option<FailCode>)
      requires Valid() && peer in pairs && pairs[peer].active
      modifies `pairs, `trace, `armed, `out
      ensures Valid() && stage != InLobby && pairs == old(pairs)[peer := old(pairs)[peer].(active := false)]
      ensures armed == Forget(old(armed), Punch(peer)) && out == old(out) + EndTold(old(armed), peer, failure)
    {
      hide InStep, Staged, Forget, PairsMatch, Opened;
      StopPair(peer);
      if failure.Some? {
        Push(PrintFail(failure.value));
      } else {
        assert out + [] == out;
      }
    }

    // The host tells the server at once, and leaves a room that is over when nobody is left in it.
    method AfterDeparture()
      requires Valid() && held.None? && stage != InLobby
      modifies this
      ensures base == old(base) && Valid() && old(out) <= out
      ensures stage != InLobby ==> departed == old(departed) && pairs == old(pairs)
      ensures !old(reporting) ==>
                && held.None?
                && out == old(out) + (if stage == InLobby then Parting(old(armed), old(stage)) else [])
                && (stage == InLobby <==> old(roomEnded) && NoneActive(old(pairs)))
      ensures old(reporting) && old(token).Some? ==>
                if old(pending).Some? then held.None? && out == old(out) && reportDue
                else if accepts(old(ReportNow())) then
                  held == Some(Submit(HostReport, old(ReportNow()))) && out == old(out) + ReportTimer(old(armed), old(lastPeerCount))
                else held.None?
      ensures stage == InLobby ==> pairs == map[]
    {
      hide InStep, Forget, PairsMatch, Opened, FailDeeds, Parting, ReportTimer, NoneActive, Paired, OneTurn;
      RoomEndedIsQuiet();
      if reporting {
        SendHostReport();
      }
      if roomEnded && NoneActive(pairs) {
        EndAttempt(true);
      }
    }

    // ---------------------------------------------------------------- what comes back

    // A request the channel had no room for counts as answered, and fails the attempt it belonged to.
    method OnSubmitDropped() returns (actions: seq<Action>)
      requires Valid() && held.None?
      modifies this
      ensures Recorded(if old(pending).Some? then old(trace) + [Answered(None)] else old(trace), actions, trace)
      ensures Valid() && held.None? && SubmitLast(actions) && pending.None?
      ensures stage == InLobby || departed == old(departed)
      ensures actions == if old(pending).Some? && old(stage) != InLobby
                         then FailDeeds(ExchangeFailed, old(role), old(stage), old(roomEnded), old(armed), old(pairs), old(hostPeer))
                         else []
    {
      hide InStep, Staged, FailDeeds, Opened, PairsMatch, NoneActive;
      Begin();
      if pending.Some? {
        var orphaned := pending.value.orphaned;
        TakeDrop();
        if !orphaned && stage != InLobby {
          FailWith(ExchangeFailed);
        }
      }
      actions := Finish();
    }

    method TakeDrop()
      requires Valid() && pending.Some? && held.None? && out == []
      modifies `pending, `trace, `base
      ensures Valid() && pending.None? && trace == base == old(trace) + [Answered(None)]
      ensures old(pending).value.orphaned <==> stage == InLobby
    {
      hide InStep, PairsMatch, Opened;
      Settle(None);
    }

    // A place in a room: its code is shown, its address taken, and candidates are looked for; a host starts reporting.
    method OnIssued(issued: Outcome<Issued>, now: nat)
      requires Valid() && stage == Issuing && held.None? && pending.None?
      requires !requestDue && Retry !in armed && requestOp in {CreateRoom, JoinRoom}
      modifies this
      ensures base == old(base)
      ensures Valid() && pending.None? && held.None?
      ensures stage == InLobby || (departed == old(departed) && role == old(role) && !requestDue && !reportDue)
      ensures stage == InLobby || reportDue == old(reportDue)
      ensures issued.Transient? && old(tries) < MAX_TRIES ==> stage == old(stage) && out == old(out) + [Arm(Retry, RETRY_MS)]
      ensures !issued.Success? && !(issued.Transient? && old(tries) < MAX_TRIES) ==>
                && stage == InLobby
                && out == old(out) + FailDeeds(ExchangeFailed, old(role), old(stage), old(roomEnded), old(armed), old(pairs), old(hostPeer))
      ensures issued.Success? ==>
                && stage == Stun && stunStarted == now && token == Some(issued.value.token)
                && roomId == issued.value.room && peerId == issued.value.peer && localVip == issued.value.vip
                && (reporting <==> role == Host)
                && out == old(out) + [PrintRoom(issued.value.room), AssignAddress(issued.value.vip)]
                          + (if old(role) == Host then [Arm(Report, REPORT_OPEN_MS)] else []) + [StartStun]
    {
      hide InStep, FailDeeds, PairsMatch, Opened;
      NothingDue();
      if issued.Transient? {
        RetryOrFail();
        return;
      }
      if !issued.Success? {
        FailWith(ExchangeFailed);
        return;
      }
      hide Staged;
      StoreIssued(issued.value);
      BeginStun(now);
    }

    lemma NothingDue()
      requires Staged()
      ensures stage == Issuing ==> !reportDue && !reporting
    {
    }

    method StoreIssued(v: Issued)
      requires Valid() && stage == Issuing
      modifies `roomId, `peerId, `localVip, `token, `requestBody, `tries, `out, `trace
      ensures Valid() && token == Some(v.token) && roomId == v.room && peerId == v.peer && localVip == v.vip
      ensures out == old(out) + [PrintRoom(v.room), AssignAddress(v.vip)]
    {
      hide InStep, PairsMatch, Opened, Staged;
      KeepIssued(v);
      Push(PrintRoom(roomId));
      Push(AssignAddress(localVip));
    }

    method KeepIssued(v: Issued)
      requires Valid() && stage == Issuing
      modifies `roomId, `peerId, `localVip, `token, `requestBody, `tries
      ensures Valid() && token == Some(v.token) && roomId == v.room && peerId == v.peer && localVip == v.vip
    {
      hide InStep, Paired;
      roomId, peerId, localVip, token := v.room, v.peer, v.vip, Some(v.token);
      requestBody, tries := NoBody(), 0;
    }

    method BeginStun(now: nat)
      requires Valid() && stage == Issuing && token.Some? && held.None? && pending.None? && !requestDue && Retry !in armed
      modifies `reporting, `armed, `out, `trace, `stage, `stunStarted
      ensures Valid() && stage == Stun && stunStarted == now && (reporting <==> role == Host)
      ensures out == old(out) + (if role == Host then [Arm(Report, REPORT_OPEN_MS)] else []) + [StartStun]
    {
      hide InStep, PairsMatch, Opened;
      if role == Host {
        ArmTimer(Report, REPORT_OPEN_MS);
      }
      reporting := role == Host;
      stage := Stun;
      stunStarted := now;
      hide Staged;
      Push(StartStun);
    }

    // A registered host has its room up; a registered player waits for the host to be ready, for a minute at most.
    method OnRegistered(rejected: Outcome<nat>)
      requires Valid() && stage == Registering && held.None? && pending.None?
      requires !requestDue && Retry !in armed && requestOp == RegisterCandidate
      modifies this
      ensures base == old(base)
      ensures Valid() && pending.None? && held.None?
      ensures stage == InLobby || (departed == old(departed) && role == old(role) && !requestDue && reportDue == old(reportDue))
      ensures rejected.Transient? && old(tries) < MAX_TRIES ==> stage == old(stage) && out == old(out) + [Arm(Retry, RETRY_MS)]
      ensures !rejected.Success? && !(rejected.Transient? && old(tries) < MAX_TRIES) ==>
                && stage == InLobby
                && out == old(out) + FailDeeds(ExchangeFailed, old(role), old(stage), old(roomEnded), old(armed), old(pairs), old(hostPeer))
      ensures rejected.Success? && old(role) == Host ==>
                stage == Settled && out == old(out) + [StartRoster(old(peerId), old(localVip))]
      ensures rejected.Success? && old(role) != Host ==>
                stage == Polling && out == old(out) + [Arm(Poll, POLL_MS), Arm(Deadline, DEADLINE_MS)]
    {
      hide InStep, FailDeeds, PairsMatch, Opened;
      if rejected.Transient? {
        RetryOrFail();
        return;
      }
      if !rejected.Success? {
        FailWith(ExchangeFailed);
        return;
      }
      Registered();
      if role == Host {
        Push(StartRoster(peerId, localVip));
        return;
      }
      hide Staged;
      Hold(Poll, POLL_MS);
      Hold(Deadline, DEADLINE_MS);
    }

    method Registered()
      requires Valid() && stage == Registering && held.None? && pending.None? && !requestDue && Retry !in armed
      modifies `requestBody, `tries, `stage
      ensures Valid() && stage == (if role == Host then Settled else Polling) && Poll !in armed && Deadline !in armed
    {
      hide InStep, Paired;
      requestBody, tries := NoBody(), 0;
      stage := if role == Host then Settled else Polling;
    }

    // A success that does not list exactly one peer is taken for a transport failure.
    method OnPeers(peers: Outcome<seq<PeerView>>)
      requires Valid() && stage == Polling && held.None? && pending.None?
      modifies this
      ensures base == old(base)
      ensures Valid() && pending.None? && held.None?
      ensures stage == InLobby || (departed == old(departed) && role == old(role) && requestDue == old(requestDue) && reportDue == old(reportDue))
      ensures peers.Definite? || peers.RateLimited? ==>
                && stage == InLobby
                && out == old(out) + FailDeeds(ExchangeFailed, old(role), old(stage), old(roomEnded), old(armed), old(pairs), old(hostPeer))
      ensures peers.Transient? || (peers.Success? && (|peers.value| != 1 || !PunchReady(peers.value[0]))) ==>
                && stage == Polling && pairs == old(pairs)
                && out == old(out) + (if Poll in old(armed) then [Cancel(Poll)] else []) + [Arm(Poll, POLL_MS)]
      ensures peers.Success? && |peers.value| == 1 && PunchReady(peers.value[0]) ==>
                var host := peers.value[0];
                && stage == Settled && pairs == map[host.id := Pair(host.name, true)]
                && out == old(out) + (if Deadline in old(armed) then [Cancel(Deadline)] else [])
                          + (if Poll in old(armed) then [Cancel(Poll)] else [])
                          + [OpenSession(host, old(role), old(stunStarted))]
                          + [if host.punchDelay <= host.elapsed then StartPunch(host.id)
                             else Arm(Punch(host.id), host.punchDelay - host.elapsed)]
      ensures hostPeer == (if peers.Success? && |peers.value| == 1 then Some(peers.value[0].id)
                           else if stage == InLobby then None else old(hostPeer))
    {
      hide InStep, Staged, Forget, FailDeeds, PairsMatch, Opened;
      if peers.Transient? || (peers.Success? && |peers.value| != 1) {
        Hold(Poll, POLL_MS);
        return;
      }
      if !peers.Success? {
        FailWith(ExchangeFailed);
        NoHost();
        return;
      }
      var host := peers.value[0];
      TakeHost(host.id);
      if PunchReady(host) {
        MeetHost(host);
        return;
      }
      Hold(Poll, POLL_MS);
    }

    method MeetHost(host: PeerView)
      requires Valid() && stage == Polling && held.None? && pending.None?
      modifies `armed, `out, `trace, `stage, `pairs
      ensures Valid() && stage == Settled && pairs == map[host.id := Pair(host.name, true)]
      ensures out == old(out) + (if Deadline in old(armed) then [Cancel(Deadline)] else [])
                     + (if Poll in old(armed) then [Cancel(Poll)] else [])
                     + [OpenSession(host, role, stunStarted)]
                     + [if host.punchDelay <= host.elapsed then StartPunch(host.id)
                        else Arm(Punch(host.id), host.punchDelay - host.elapsed)]
    {
      hide InStep, Staged, Forget, PairsMatch, Opened;
      LetGo(Deadline);
      LetGo(Poll);
      LeavePolling();
      OpenPair(host, stunStarted);
    }

    lemma NoHost()
      requires Staged() && stage == InLobby
      ensures hostPeer.None?
    {
    }

    method TakeHost(host: PeerId)
      requires Valid() && stage == Polling
      modifies `hostPeer
      ensures Valid() && hostPeer == Some(host)
    {
      hide InStep, Paired, OneTurn;
      hostPeer := Some(host);
    }

    method LeavePolling()
      requires Valid() && stage == Polling && pending.None? && Poll !in armed && Deadline !in armed
      modifies `stage
      ensures Valid() && stage == Settled && pairs == map[]
    {
      hide InStep, Paired;
      stage := Settled;
    }

    // Peers in neither the answer nor the unreported ids are forgotten once ended.
    method NoteListed(peers: seq<PeerView>, now: nat)
      requires Valid() && stage != InLobby
      modifies `confirm, `firstSeen, `pairs, `lastPeerCount
      ensures Valid()
      ensures forall id :: id in pairs <==> id in old(pairs) && (old(pairs)[id].active || IsListed(peers, id) || id in departed)
      ensures forall id | id in pairs :: pairs[id] == old(pairs)[id]
      ensures forall i | 0 <= i < |peers| :: peers[i].id in firstSeen && firstSeen[peers[i].id] == SeenAt(old(firstSeen), peers[i].id, now)
      ensures lastPeerCount == |peers| && confirm == NotReady(peers)
    {
      hide InStep, Staged, PairsMatch, Opened, NotReady, SeenAt;
      lastPeerCount := |peers|;
      var listed := ListAll(peers, now);
      ForgetUnlisted(listed);
    }

    // Who is in the answer, since when, and who waits for a confirmation.
    method ListAll(peers: seq<PeerView>, now: nat) returns (listed: set<PeerId>)
      modifies `confirm, `firstSeen
      ensures forall id :: id in listed <==> IsListed(peers, id)
      ensures forall id | id in listed :: id in firstSeen && firstSeen[id] == SeenAt(old(firstSeen), id, now)
      ensures forall i | 0 <= i < |peers| :: peers[i].id in listed
      ensures confirm == NotReady(peers)
    {
      confirm := [];
      listed := {};
      for i := 0 to |peers|
        invariant forall id :: id in listed <==> IsListed(peers[..i], id)
        invariant forall id | id in listed :: id in firstSeen
        invariant forall id | id in firstSeen :: (id in listed || id in old(firstSeen)) && firstSeen[id] == SeenAt(old(firstSeen), id, now)
        invariant forall id | id in old(firstSeen) :: id in firstSeen
        invariant forall k | 0 <= k < i :: peers[k].id in listed
        invariant confirm == NotReady(peers[..i])
      {
        ListedNext(peers, i);
        listed := listed + {peers[i].id};
        if peers[i].id !in firstSeen {
          firstSeen := firstSeen[peers[i].id := now];
        }
        if !peers[i].ready {
          confirm := confirm + [peers[i].id];
        }
      }
      assert peers[..|peers|] == peers;
    }

    method ForgetUnlisted(listed: set<PeerId>)
      requires Valid() && stage != InLobby
      modifies `firstSeen, `pairs
      ensures Valid()
      ensures forall id :: id in pairs <==> id in old(pairs) && (old(pairs)[id].active || id in listed || id in departed)
      ensures forall id | id in pairs :: pairs[id] == old(pairs)[id]
      ensures forall id | id in listed && id in old(firstSeen) :: id in firstSeen && firstSeen[id] == old(firstSeen)[id]
    {
      hide InStep, OneTurn, Opened;
      pairs := map id | id in pairs && (pairs[id].active || id in listed || id in departed) :: pairs[id];
      firstSeen := map id | id in firstSeen && (id in listed || id in pairs) :: firstSeen[id];
    }

    // A report that succeeded takes in the peers of the room; once the room is up, each that is ready gets its session.
    method OnHostReport(report: Outcome<seq<PeerView>>, carried: seq<PeerId>, now: nat)
      requires Valid() && stage != InLobby && held.None? && pending.None?
      requires report.Success? ==> JustReported(trace, carried)
      modifies this
      ensures base == old(base)
      ensures Valid() && pending.None? && held.None?
      ensures stage != InLobby ==> role == old(role) && requestDue == old(requestDue)
      ensures stage != InLobby && requestDue ==> requestOp == old(requestOp) && requestBody == old(requestBody)
      ensures stage == InLobby || departed == if report.Success? then Drop(old(departed), carried) else old(departed)
      ensures report.Transient? || report.RateLimited? ==>
                out == old(out) && stage == old(stage) && pairs == old(pairs) && reportDue == old(reportDue)
      ensures report.Definite? ==>
                && out == old(out) + FailDeeds(ExchangeFailed, old(role), old(stage), old(roomEnded), old(armed), old(pairs), old(hostPeer))
                && if FailureEnds(old(role), old(stage), old(roomEnded), old(pairs)) then stage == InLobby
                   else KeepsRoom(old(departed), old(pairs), old(role))
      ensures report.Success? ==>
                && stage == old(stage) && reportDue == old(reportDue)
                && lastPeerCount == |report.value| && confirm == NotReady(report.value)
      ensures report.Success? && old(stage) != Settled ==> out == old(out)
      ensures report.Success? && old(stage) == Settled ==>
                && out == old(out) + [SetRosterPeers(report.value)]
                          + OpenDeeds(report.value, |report.value|, old(pairs), old(role), old(firstSeen), now)
                && forall i | 0 <= i < |report.value| && PunchReady(report.value[i]) :: report.value[i].id in pairs
    {
      hide InStep, Staged, PairsMatch, Opened, FailDeeds, NoneActive, OpenDeeds, Drop, NotReady;
      if report.Definite? {
        FailWith(ExchangeFailed);
        NothingOwed();
        return;
      }
      if report.Success? {
        TakeReport(report.value, carried, now);
      }
    }

    method TakeReport(peers: seq<PeerView>, carried: seq<PeerId>, now: nat)
      requires Valid() && stage != InLobby && held.None? && pending.None? && JustReported(trace, carried)
      modifies `departed, `trace, `confirm, `firstSeen, `pairs, `lastPeerCount, `out, `armed
      ensures Valid() && departed == Drop(old(departed), carried) && lastPeerCount == |peers| && confirm == NotReady(peers)
      ensures stage != Settled ==> out == old(out)
      ensures stage == Settled ==>
                && out == old(out) + [SetRosterPeers(peers)] + OpenDeeds(peers, |peers|, old(pairs), role, old(firstSeen), now)
                && forall i | 0 <= i < |peers| && PunchReady(peers[i]) :: peers[i].id in pairs
    {
      hide InStep, Staged, PairsMatch, Opened, OpenDeeds, Drop, NotReady, IsListed, SeenAt;
      NoteDelivered(carried);
      NoteListed(peers, now);
      if stage == Settled {
        TakeIn(peers, old(pairs), old(firstSeen), now);
      }
    }

    method TakeIn(peers: seq<PeerView>, ghost known: map<PeerId, Pair>, ghost seen: map<PeerId, nat>, ghost now: nat)
      requires Valid() && stage == Settled && held.None? && pending.None?
      requires forall id | IsListed(peers, id) :: (id in pairs <==> id in known)
      requires forall i | 0 <= i < |peers| :: peers[i].id in firstSeen && firstSeen[peers[i].id] == SeenAt(seen, peers[i].id, now)
      modifies `pairs, `out, `trace, `armed
      ensures Valid()
      ensures out == old(out) + [SetRosterPeers(peers)] + OpenDeeds(peers, |peers|, known, role, seen, now)
      ensures forall i | 0 <= i < |peers| && PunchReady(peers[i]) :: peers[i].id in pairs
    {
      hide InStep, Staged, PairsMatch, Opened, OpenDeeds, IsListed;
      Push(SetRosterPeers(peers));
      ghost var start := out;
      OpenNone(start, peers, known, role, seen, now);
      for i := 0 to |peers|
        invariant Valid()
        invariant forall id | IsListed(peers, id) :: (id in pairs <==> id in known || ReadyBefore(peers, i, id))
        invariant out == start + OpenDeeds(peers, i, known, role, seen, now)
      {
        ListedAt(peers, i);
        ReadyNext(peers, i);
        OpenNext(start, peers, i, known, role, seen, now);
        if PunchReady(peers[i]) && peers[i].id !in pairs {
          OpenPair(peers[i], firstSeen[peers[i].id]);
        }
      }
      AllReady(peers);
    }

    // What a reply that fits makes the lobby do at once.
    function ReplyDeeds(reply: Reply, now: nat): seq<Action>
      reads `role, `stage, `roomEnded, `armed, `pairs, `hostPeer, `tries, `peerId, `localVip, `stunStarted, `firstSeen
    {
      var fail := FailDeeds(ExchangeFailed, role, stage, roomEnded, armed, pairs, hostPeer);
      match reply.answer
      case IssuedAnswer(issued) => IssuedDeeds(issued, role, tries, fail)
      case RegisteredAnswer(rejected) => RegisteredDeeds(rejected, role, tries, peerId, localVip, fail)
      case PeersAnswer(peers) => PeersDeeds(peers, armed, role, stunStarted, fail)
      case ReportAnswer(report) => ReportDeeds(report, stage, pairs, role, firstSeen, now, fail)
    }

    // Main result: what every reply leads to.  One nobody waits for, or to an attempt that is over, does nothing; one
    // that does not fit fails the attempt; any other is followed at once, and then what it held up goes out.  What was
    // unreported stays so unless a report that carried it succeeded, or the attempt is over.
    method OnReply(reply: Reply, now: nat) returns (actions: seq<Action>)
      requires Valid() && held.None?
      modifies this
      ensures Recorded(if old(pending).Some? then old(trace) + [Answered(Some(reply))] else old(trace), actions, trace)
      ensures Valid() && held.None? && SubmitLast(actions)
      ensures old(pending).None? || old(stage) == InLobby ==> actions == [] && stage == old(stage)
      ensures old(pending).Some? && old(stage) != InLobby && !(old(pending).value.op == reply.op && Fits(reply.op, reply.answer)) ==>
                actions == FailDeeds(ExchangeFailed, old(role), old(stage), old(roomEnded), old(armed), old(pairs), old(hostPeer))
      ensures old(pending).Some? && old(stage) != InLobby && old(pending).value.op == reply.op && Fits(reply.op, reply.answer) ==>
                && old(ReplyDeeds(reply, now)) <= actions
                && (!old(requestDue) && !old(reportDue) ==> actions == old(ReplyDeeds(reply, now)))
                && (old(requestDue) && stage != InLobby ==>
                      actions == old(ReplyDeeds(reply, now)) + [Submit(old(requestOp), old(requestBody))])
                && (!old(requestDue) && old(reportDue) && stage != InLobby && reporting ==>
                      token.Some? && actions != [] && actions[|actions| - 1] == Submit(HostReport, ReportNow()))
      ensures stage == InLobby || departed == old(departed)
              || (old(pending).Some? && SuccessfulReport(reply) && old(pending).value.op == HostReport
                  && departed == Drop(old(departed), old(pending).value.departed))
    {
      hide InStep, Staged, PairsMatch, Opened, FailDeeds, ReplyDeeds, JustReported, ReportNow, Drop, Recorded, SubmitLast, Fits, OwnOp;
      Begin();
      if pending.None? {
        actions := Finish();
        return;
      }
      var p := pending.value;
      TakeAnswer(reply);
      Handle(p, reply, now);
      actions := Finish();
    }

    // The request is answered; whose turn it was is known from before.
    method TakeAnswer(reply: Reply)
      requires Valid() && pending.Some? && held.None? && out == []
      modifies `pending, `trace, `base
      ensures Valid() && pending.None? && trace == base == old(trace) + [Answered(Some(reply))]
      ensures SuccessfulReport(reply) ==> JustReported(trace, old(pending).value.departed)
      ensures old(pending).value.orphaned <==> stage == InLobby
      ensures stage != InLobby && OwnOp(old(pending).value.op) ==>
                !requestDue && Retry !in armed && requestOp == old(pending).value.op
      ensures stage != InLobby && old(pending).value.op in {CreateRoom, JoinRoom} ==> stage == Issuing
      ensures stage != InLobby && old(pending).value.op == RegisterCandidate ==> stage == Registering
      ensures stage != InLobby && old(pending).value.op == GetPeers ==> stage == Polling
    {
      hide InStep, PairsMatch, Opened;
      Settle(Some(reply));
    }

    // An answer that does not fit the request fails the attempt; one to an attempt that is over is dropped.
    method Handle(p: Pending, reply: Reply, now: nat)
      requires Valid() && held.None? && pending.None? && (p.orphaned <==> stage == InLobby)
      requires SuccessfulReport(reply) ==> JustReported(trace, p.departed)
      requires !p.orphaned && OwnOp(p.op) ==> !requestDue && Retry !in armed && requestOp == p.op
      requires !p.orphaned && p.op in {CreateRoom, JoinRoom} ==> stage == Issuing
      requires !p.orphaned && p.op == RegisterCandidate ==> stage == Registering
      requires !p.orphaned && p.op == GetPeers ==> stage == Polling
      modifies this
      ensures base == old(base) && Valid()
      ensures stage == InLobby || departed == old(departed)
              || (SuccessfulReport(reply) && p.op == HostReport && departed == Drop(old(departed), p.departed))
      ensures p.orphaned ==> held.None? && out == old(out) && stage == old(stage)
      ensures !p.orphaned && !(p.op == reply.op && Fits(p.op, reply.answer)) ==>
                && held.None?
                && out == old(out) + FailDeeds(ExchangeFailed, old(role), old(stage), old(roomEnded), old(armed), old(pairs), old(hostPeer))
      ensures !p.orphaned && p.op == reply.op && Fits(p.op, reply.answer) ==>
                && old(out) + old(ReplyDeeds(reply, now)) <= out
                && (!old(requestDue) && !old(reportDue) ==> held.None? && out == old(out) + old(ReplyDeeds(reply, now)))
                && (old(requestDue) && stage != InLobby ==>
                      out == old(out) + old(ReplyDeeds(reply, now)) && held == Some(Submit(old(requestOp), old(requestBody))))
                && (!old(requestDue) && old(reportDue) && stage != InLobby && reporting ==>
                      token.Some? && held == Some(Submit(HostReport, ReportNow())))
    {
      hide InStep, Staged, PairsMatch, Opened, FailDeeds, ReplyDeeds, ReportTimer, ReportNow, NoneActive;
      if p.op != reply.op || !Fits(p.op, reply.answer) {
        if !p.orphaned && stage != InLobby {
          FailWith(ExchangeFailed);
        }
        NothingOwed();
        RunDue();
      } else if !p.orphaned {
        Dispatch(reply, p.departed, now);
        NothingOwed();
        RunDue();
      }
    }

    lemma NothingOwed()
      requires Staged()
      ensures stage == Settled ==> !requestDue
      ensures stage in {InLobby, Polling} ==> !requestDue
      ensures reportDue ==> reporting && token.Some?
    {
    }

    method Dispatch(reply: Reply, carried: seq<PeerId>, now: nat)
      requires Valid() && stage != InLobby && held.None? && pending.None? && Fits(reply.op, reply.answer)
      requires OwnOp(reply.op) ==> !requestDue && Retry !in armed && requestOp == reply.op
      requires reply.op in {CreateRoom, JoinRoom} ==> stage == Issuing
      requires reply.op == RegisterCandidate ==> stage == Registering
      requires reply.op == GetPeers ==> stage == Polling
      requires SuccessfulReport(reply) ==> JustReported(trace, carried)
      modifies this
      ensures base == old(base)
      ensures Valid() && pending.None? && held.None?
      ensures stage == InLobby || departed == old(departed) || (SuccessfulReport(reply) && departed == Drop(old(departed), carried))
      ensures out == old(out) + old(ReplyDeeds(reply, now))
      ensures stage != InLobby && (requestDue || reportDue) ==> old(requestDue) || old(reportDue)
      ensures stage != InLobby ==> requestDue == old(requestDue) && (reporting ==> reportDue == old(reportDue))
      ensures stage != InLobby && requestDue ==> requestOp == old(requestOp) && requestBody == old(requestBody)
    {
      hide InStep, Staged, PairsMatch, Opened, FailDeeds, NoneActive;
      NothingOwed();
      match reply.answer {
        case IssuedAnswer(issued) =>
          OnIssued(issued, now);
          IssuedOut(old(out), issued, old(role), old(tries));
        case RegisteredAnswer(rejected) =>
          OnRegistered(rejected);
        case PeersAnswer(peers) =>
          OnPeers(peers);
          PeersOut(old(out), peers, old(armed), old(role), old(stunStarted));
        case ReportAnswer(report) =>
          OnHostReport(report, carried, now);
          ReportOut(old(out), report, old(stage), old(pairs), old(role), old(firstSeen), now);
      }
      NothingOwed();
    }

    // The end of the STUN stage: one registration with what was found, at once or when the channel is free.
    method OnStunDone(ok: bool, mappings: nat, candidates: seq<Endpoint>) returns (actions: seq<Action>)
      requires Valid() && held.None?
      modifies this
      ensures Recorded(old(trace), actions, trace)
      ensures Valid() && held.None? && SubmitLast(actions)
      ensures stage == InLobby || departed == old(departed)
      ensures old(stage) != Stun ==> actions == [] && stage == old(stage)
      ensures old(stage) == Stun && old(token).Some? ==>
                var body := RegisterBody(old(roomId), old(peerId), old(token).value, candidates);
                if !ok || mappings == 0 || !accepts(body) then
                  && stage == InLobby
                  && actions == FailDeeds(if !ok || mappings == 0 then StunFailed else ExchangeFailed,
                                          old(role), Registering, old(roomEnded), old(armed), old(pairs), old(hostPeer))
                else
                  && stage == Registering
                  && if old(pending).Some? then actions == [] && requestDue && requestOp == RegisterCandidate && requestBody == body
                     else actions == [Submit(RegisterCandidate, body)]
    {
      hide InStep, Staged, PairsMatch, Opened, FailDeeds;
      Begin();
      if stage == Stun {
        AfterStun(ok && mappings != 0, candidates);
      }
      actions := Finish();
    }

    method AfterStun(found: bool, candidates: seq<Endpoint>)
      requires Valid() && held.None? && stage == Stun
      modifies this
      ensures base == old(base) && Valid() && (stage == InLobby || departed == old(departed))
      ensures old(token).Some? ==>
                var body := RegisterBody(old(roomId), old(peerId), old(token).value, candidates);
                if !found || !accepts(body) then
                  && held.None? && stage == InLobby
                  && out == old(out) + FailDeeds(if !found then StunFailed else ExchangeFailed,
                                                 old(role), Registering, old(roomEnded), old(armed), old(pairs), old(hostPeer))
                else
                  && stage == Registering && out == old(out)
                  && if old(pending).Some? then held.None? && requestDue && requestOp == RegisterCandidate && requestBody == body
                     else held == Some(Submit(RegisterCandidate, body))
    {
      hide InStep, Staged, PairsMatch, Opened, FailDeeds, NoneActive, KeepsRoom;
      LeaveStun();
      var body := RegisterBody(roomId, peerId, token.value, candidates);
      if !found || !accepts(body) {
        FailWith(if !found then StunFailed else ExchangeFailed);
        return;
      }
      TakeRequest(body);
      SendOrDefer();
    }

    method LeaveStun()
      requires Valid() && stage == Stun
      modifies `stage
      ensures Valid() && stage == Registering && token.Some?
      ensures Retry !in armed && !requestDue && (pending.Some? ==> !OwnOp(pending.value.op))
    {
      hide InStep, Paired;
      stage := Registering;
    }

    method TakeRequest(body: Body)
      requires Valid() && stage == Registering && body.RegisterBody?
      requires Retry !in armed && !requestDue && (pending.Some? ==> !OwnOp(pending.value.op))
      modifies `requestOp, `requestBody, `tries
      ensures Valid() && requestOp == RegisterCandidate && requestBody == body && tries == 0
    {
      hide InStep, Paired;
      requestOp, requestBody, tries := RegisterCandidate, body, 0;
    }

    // The timer set fires only what it holds, and has let go of it.
    method OnTimer(t: TimerName) returns (actions: seq<Action>)
      requires Valid() && held.None?
      modifies this
      ensures Recorded(if t in old(armed) then old(trace) + [Fired(t)] else old(trace), actions, trace)
      ensures Valid() && held.None? && SubmitLast(actions)
      ensures stage == InLobby || departed == old(departed)
      ensures t !in old(armed) ==> actions == [] && stage == old(stage)
      ensures t in old(armed) && t.Punch? ==> actions == [StartPunch(t.peer)] && t.peer in pairs && pairs[t.peer].active
      ensures t in old(armed) && t.Retry? ==>
                if old(pending).Some? then actions == [] && requestDue else actions == [Submit(old(requestOp), old(requestBody))]
      ensures t in old(armed) && t.Poll? && old(token).Some? ==>
                var body := PeersBody(old(roomId), old(peerId), old(token).value);
                if old(pending).Some? then actions == []
                else if accepts(body) then actions == [Submit(GetPeers, body)] && stage == Polling
                else actions == FailDeeds(ExchangeFailed, old(role), Polling, old(roomEnded), Forget(old(armed), t), old(pairs), old(hostPeer)) && stage == InLobby
      ensures t in old(armed) && t.Deadline? ==>
                actions == FailDeeds(ExchangeFailed, old(role), Polling, old(roomEnded), Forget(old(armed), t), old(pairs), old(hostPeer)) && stage == InLobby
      ensures t in old(armed) && t.Report? && !old(reporting) ==> actions == []
      ensures t in old(armed) && t.Report? && old(reporting) && old(token).Some? ==>
                if old(pending).Some? then actions == [] && reportDue
                else if accepts(old(ReportNow())) then
                  actions == ReportTimer(Forget(old(armed), t), old(lastPeerCount)) + [Submit(HostReport, old(ReportNow()))]
                else actions == FailDeeds(ExchangeFailed, old(role), old(stage), old(roomEnded), Forget(old(armed), t), old(pairs), old(hostPeer))
    {
      hide InStep, Staged, PairsMatch, Opened, FailDeeds, Forget, ReportNow, ReportTimer, Recorded, SubmitLast;
      Begin();
      if t !in armed {
        actions := Finish();
        return;
      }
      Take(t);
      Expire(t);
      actions := Finish();
    }

    // The timer is no longer held; what it stood for is known from before.
    method Take(t: TimerName)
      requires Valid() && t in armed && out == []
      modifies `armed, `trace, `base
      ensures Valid() && armed == Forget(old(armed), t) && trace == base == old(trace) + [Fired(t)]
      ensures t == Retry ==> !requestDue && (pending.Some? ==> !OwnOp(pending.value.op))
                             && ((stage == Issuing && requestOp in {CreateRoom, JoinRoom})
                                 || (stage == Registering && requestOp == RegisterCandidate))
      ensures t.Punch? ==> t.peer in pairs && pairs[t.peer].active
      ensures t.Poll? || t.Deadline? ==> stage == Polling && token.Some?
      ensures t.Report? && reporting ==> token.Some? && stage != InLobby
    {
      hide InStep, PairsMatch, Opened;
      Release(t);
    }

    method Expire(t: TimerName)
      requires Valid() && held.None? && t !in armed
      requires t == Retry && pending.Some? ==> !OwnOp(pending.value.op)
      requires t == Retry ==> !requestDue && ((stage == Issuing && requestOp in {CreateRoom, JoinRoom})
                                              || (stage == Registering && requestOp == RegisterCandidate))
      requires t.Poll? || t.Deadline? ==> stage == Polling && token.Some?
      requires t.Punch? ==> t.peer in pairs && pairs[t.peer].active
      modifies this
      ensures base == old(base)
      ensures Valid() && (stage == InLobby || departed == old(departed))
      ensures t.Punch? ==> held.None? && out == old(out) + [StartPunch(t.peer)] && pairs == old(pairs)
      ensures t.Retry? ==>
                && out == old(out)
                && if old(pending).Some? then held.None? && requestDue else held == Some(Submit(old(requestOp), old(requestBody)))
      ensures t.Poll? ==>
                var body := PeersBody(old(roomId), old(peerId), old(token).value);
                if old(pending).Some? then held.None? && out == old(out)
                else if accepts(body) then held == Some(Submit(GetPeers, body)) && out == old(out) && stage == Polling
                else
                  && held.None? && stage == InLobby
                  && out == old(out) + FailDeeds(ExchangeFailed, old(role), Polling, old(roomEnded), old(armed), old(pairs), old(hostPeer))
      ensures t.Deadline? ==>
                && held.None? && stage == InLobby
                && out == old(out) + FailDeeds(ExchangeFailed, old(role), Polling, old(roomEnded), old(armed), old(pairs), old(hostPeer))
      ensures t.Report? && !old(reporting) ==> held.None? && out == old(out)
      ensures t.Report? && old(reporting) && old(token).Some? ==>
                if old(pending).Some? then held.None? && out == old(out) && reportDue
                else if accepts(old(ReportNow())) then
                  held == Some(Submit(HostReport, old(ReportNow()))) && out == old(out) + ReportTimer(old(armed), old(lastPeerCount))
                else
                  && held.None?
                  && out == old(out) + FailDeeds(ExchangeFailed, old(role), old(stage), old(roomEnded), old(armed), old(pairs), old(hostPeer))
    {
      hide InStep, Staged, PairsMatch, Opened, FailDeeds, ReportTimer, ReportNow;
      match t {
        case Retry =>
          if stage == Issuing || stage == Registering {
            SendOrDefer();
          }
        case Poll =>
          if stage == Polling && pending.None? {
            AskPeers();
          }
        case Deadline =>
          if stage == Polling {
            FailWith(ExchangeFailed);
          }
        case Report =>
          if reporting {
            SendHostReport();
          }
        case Punch(peer) => Push(StartPunch(peer));
      }
    }

    method AskPeers()
      requires Valid() && held.None? && pending.None? && stage == Polling && token.Some?
      modifies this
      ensures base == old(base)
      ensures Valid() && (stage == InLobby || departed == old(departed))
      ensures var body := PeersBody(old(roomId), old(peerId), old(token).value);
              if accepts(body) then held == Some(Submit(GetPeers, body)) && out == old(out) && stage == Polling
              else
                && held.None? && stage == InLobby
                && out == old(out) + FailDeeds(ExchangeFailed, old(role), Polling, old(roomEnded), old(armed), old(pairs), old(hostPeer))
    {
      hide InStep, PairsMatch, Opened, FailDeeds;
      var body := PeersBody(roomId, peerId, token.value);
      if !accepts(body) {
        FailWith(ExchangeFailed);
        return;
      }
      SubmitHeld(GetPeers, body, []);
    }

    // The end of a session ends its pair, once: a player's attempt is over, a host reports who left.
    method OnSessionEnded(peer: PeerId, failure: Option<FailCode>) returns (actions: seq<Action>)
      requires Valid() && held.None?
      modifies this
      ensures Recorded(old(trace), actions, trace)
      ensures Valid() && held.None? && SubmitLast(actions)
      ensures stage == InLobby || departed == if peer in old(pairs) && old(pairs)[peer].active then WithDeparture(old(departed), peer) else old(departed)
      ensures !(peer in old(pairs) && old(pairs)[peer].active) ==> actions == [] && pairs == old(pairs) && stage == old(stage)
      ensures peer in old(pairs) && old(pairs)[peer].active ==>
                && (peer in pairs ==> !pairs[peer].active)
                && EndTold(old(armed), peer, failure) <= actions
                && (old(role) == Player ==>
                      stage == InLobby
                      && actions == EndTold(old(armed), peer, failure) + Parting(Forget(old(armed), Punch(peer)), old(stage)))
                && (old(role) != Player && old(reporting) && old(pending).None? && old(token).Some? ==>
                      var body := ReportBody(old(roomId), old(peerId), old(token).value, WithDeparture(old(departed), peer), old(confirm));
                      accepts(body) ==>
                        actions == EndTold(old(armed), peer, failure)
                                   + ReportTimer(Forget(old(armed), Punch(peer)), old(lastPeerCount)) + [Submit(HostReport, body)])
    {
      hide InStep, Staged, PairsMatch, Opened, FailDeeds, Parting, ReportTimer, EndTold, WithDeparture, Forget, NoneActive;
      Begin();
      ClosePair(peer, failure);
      actions := Finish();
    }

    // A session that could not be opened ends its pair in the same way, with a line kept of it.
    method OnSessionOpenFailed(peer: PeerId) returns (actions: seq<Action>)
      requires Valid() && held.None?
      modifies this
      ensures Recorded(old(trace), actions, trace)
      ensures Valid() && held.None? && SubmitLast(actions)
      ensures stage == InLobby || departed == if peer in old(pairs) && old(pairs)[peer].active then WithDeparture(old(departed), peer) else old(departed)
      ensures !(peer in old(pairs) && old(pairs)[peer].active) ==> actions == [] && pairs == old(pairs) && stage == old(stage)
      ensures peer in old(pairs) && old(pairs)[peer].active ==>
                && (peer in pairs ==> !pairs[peer].active)
                && [RecordAttempt(old(role), Some(peer))] + EndTold(old(armed), peer, Some(ExchangeFailed)) <= actions
                && (old(role) == Player ==>
                      stage == InLobby
                      && actions == [RecordAttempt(Player, Some(peer))] + EndTold(old(armed), peer, Some(ExchangeFailed))
                                    + Parting(Forget(old(armed), Punch(peer)), old(stage)))
    {
      hide InStep, Staged, PairsMatch, Opened, FailDeeds, Parting, ReportTimer, EndTold, WithDeparture, Forget, NoneActive;
      Begin();
      if peer in pairs && pairs[peer].active {
        Push(RecordAttempt(role, Some(peer)));
        ClosePair(peer, Some(ExchangeFailed));
      }
      actions := Finish();
    }

    // The program ends: the attempt does too, without a word to the room.
    method OnShutdown() returns (actions: seq<Action>)
      requires Valid() && held.None?
      modifies this
      ensures Recorded(old(trace), actions, trace)
      ensures Valid() && held.None? && stage == InLobby
      ensures actions == if old(stage) == InLobby then []
                         else Unfinished(old(role), old(stage), old(pairs), old(hostPeer)) + CancelAll(old(armed))
                              + (if old(stage) == Stun then [CancelStun] else [])
    {
      hide InStep, Staged, PairsMatch, Opened, Unfinished, CancelAll;
      Begin();
      if stage != InLobby {
        RecordUnfinished();
        EndAttempt(false);
      }
      actions := Finish();
    }
  }

  lemma {:induction false} ForgetNothing(names: seq<TimerName>, t: TimerName)
    requires t !in names
    ensures Forget(names, t) == names
  {
    if names != [] {
      ForgetNothing(names[1..], t);
    }
  }

  // ---------------------------------------------------------------- what being in step means

  lemma {:induction false} InStepBefore(trace: seq<Happening>, i: nat)
    requires i <= |trace|
    ensures Outstanding(trace).Some? ==> Outstanding(trace[..i]).Some?
    ensures Timers(trace).Some? ==> Timers(trace[..i]).Some?
    decreases |trace|
  {
    if i == |trace| {
      assert trace[..i] == trace;
    } else {
      var before := trace[..|trace| - 1];
      InStepBefore(before, i);
      assert before[..i] == trace[..i];
    }
  }

  ghost predicate AnsweredBetween(trace: seq<Happening>, i: nat, j: nat) {
    exists k :: i < k < j && k < |trace| && trace[k].Answered?
  }

  ghost predicate ReleasedBetween(trace: seq<Happening>, i: nat, j: nat, t: TimerName) {
    exists k :: i < k < j && k < |trace| && (trace[k] == Did(Cancel(t)) || trace[k] == Fired(t))
  }

  predicate IsSubmit(h: Happening) {
    h.Did? && h.action.Submit?
  }

  predicate IsArm(h: Happening, t: TimerName) {
    h.Did? && h.action.Arm? && h.action.timer == t
  }

  // A request once submitted is under way until it is answered.
  lemma {:induction false} UnderWay(trace: seq<Happening>, i: nat)
    requires Outstanding(trace).Some? && i < |trace| && IsSubmit(trace[i])
    ensures Outstanding(trace) == Some(1) || AnsweredBetween(trace, i, |trace|)
    decreases |trace|
  {
    var n := |trace| - 1;
    var before := trace[..n];
    assert trace == before + [trace[n]];
    RecordGrows(before, trace[n]);
    InStepBefore(trace, n);
    if i < n {
      UnderWay(before, i);
      if AnsweredBetween(before, i, n) {
        var k :| i < k < n && before[k].Answered?;
        assert trace[k].Answered?;
      }
    }
  }

  // Main result: between any two requests the first is answered.
  lemma OneRequestAtATime(trace: seq<Happening>, i: nat, j: nat)
    requires Outstanding(trace).Some? && i < j < |trace| && IsSubmit(trace[i]) && IsSubmit(trace[j])
    ensures AnsweredBetween(trace, i, j)
  {
    var upto := trace[..j + 1];
    var before := trace[..j];
    InStepBefore(trace, j + 1);
    InStepBefore(trace, j);
    assert upto == before + [trace[j]];
    RecordGrows(before, trace[j]);
    UnderWay(before, i);
    assert AnsweredBetween(before, i, j);
    var k :| i < k < j && before[k].Answered?;
    assert trace[k].Answered?;
  }

  // A timer once armed is held until it fires or is cancelled.
  lemma {:induction false} Held(trace: seq<Happening>, i: nat, t: TimerName)
    requires Timers(trace).Some? && i < |trace| && IsArm(trace[i], t)
    ensures t in Timers(trace).value || ReleasedBetween(trace, i, |trace|, t)
    decreases |trace|
  {
    var n := |trace| - 1;
    var before := trace[..n];
    assert trace == before + [trace[n]];
    RecordGrows(before, trace[n]);
    InStepBefore(trace, n);
    if i < n {
      Held(before, i, t);
      if ReleasedBetween(before, i, n, t) {
        var k :| i < k < n && (before[k] == Did(Cancel(t)) || before[k] == Fired(t));
        assert trace[k] == Did(Cancel(t)) || trace[k] == Fired(t);
      }
    }
  }

  // Main result: no deadline is lost to another of the same name: a timer armed twice fired or was
  // cancelled in between.
  lemma NoDeadlineLost(trace: seq<Happening>, i: nat, j: nat, t: TimerName)
    requires Timers(trace).Some? && i < j < |trace| && IsArm(trace[i], t) && IsArm(trace[j], t)
    ensures ReleasedBetween(trace, i, j, t)
  {
    var upto := trace[..j + 1];
    var before := trace[..j];
    InStepBefore(trace, j + 1);
    InStepBefore(trace, j);
    assert upto == before + [trace[j]];
    RecordGrows(before, trace[j]);
    Held(before, i, t);
    assert ReleasedBetween(before, i, j, t);
    var k :| i < k < j && (before[k] == Did(Cancel(t)) || before[k] == Fired(t));
    assert trace[k] == Did(Cancel(t)) || trace[k] == Fired(t);
  }

  // ---------------------------------------------------------------- which sessions are open

  // The session was opened here for this peer, and neither it nor the attempt has ended since.
  ghost predicate OpenSince(trace: seq<Happening>, i: nat, id: PeerId) {
    && i < |trace| && trace[i].Did? && trace[i].action.OpenSession? && trace[i].action.view.id == id
    && forall k | i < k < |trace| :: !trace[k].Over? && trace[k] != Ended(id) && !IsOpening(trace[k], id)
  }

  predicate IsOpening(h: Happening, id: PeerId) {
    h.Did? && h.action.OpenSession? && h.action.view.id == id
  }

  // Main result: in the record, and so at every lobby, a peer is an active pair if and only if the owner was told to open
  // its session, with this view and role, and was not told since that it or the attempt is over.
  lemma {:induction false} OpenMeansOpened(trace: seq<Happening>, id: PeerId)
    ensures id in Opened(trace) <==> exists i: nat :: OpenSince(trace, i, id)
    ensures forall i: nat | OpenSince(trace, i, id) ::
              id in Opened(trace) && Opened(trace)[id] == Opening(trace[i].action.view, trace[i].action.role)
    decreases |trace|
  {
    if trace != [] {
      var n := |trace| - 1;
      var before, h := trace[..n], trace[n];
      OpenMeansOpened(before, id);
      assert trace == before + [h];
      hide Opened;
      RecordGrows(before, h);
      OpenedStep(before, h, id);
    }
  }

  lemma OpenedStep(before: seq<Happening>, h: Happening, id: PeerId)
    ensures var trace := before + [h];
            forall i: nat :: OpenSince(trace, i, id) <==>
              if IsOpening(h, id) then i == |before| else h != Ended(id) && !h.Over? && OpenSince(before, i, id)
    ensures IsOpening(h, id) ==> OpenSince(before + [h], |before|, id)
  {
    var trace := before + [h];
    forall i: nat
      ensures OpenSince(trace, i, id) <==>
              if IsOpening(h, id) then i == |before| else h != Ended(id) && !h.Over? && OpenSince(before, i, id)
    {
      assert trace[|before|] == h;
      if OpenSince(trace, i, id) && i < |before| {
        assert forall k | i < k < |before| :: trace[k] == before[k];
      }
      if OpenSince(before, i, id) {
        assert forall k | i < k < |trace| :: trace[k] == if k < |before| then before[k] else h;
      }
    }
  }

  // One session opened among these actions, its punch right after it.
  ghost predicate OpenedOnce(actions: seq<Action>, peer: PeerView, role: Role, base: nat) {
    && (exists m :: 0 <= m < |actions| - 1 && actions[m] == OpenSession(peer, role, base) && actions[m + 1] == PunchOf(peer))
    && (forall m, l | 0 <= m < |actions| && 0 <= l < |actions| && IsOpening(Did(actions[m]), peer.id) && IsOpening(Did(actions[l]), peer.id) ::
          m == l)
  }

  // Main result: a successful report opens a session for every listed peer that is ready, has candidates and was in no
  // pair, exactly one even if it is listed twice, each followed by its punch, and for no other.
  lemma {:induction false} OpensExactly(peers: seq<PeerView>, n: nat, known: map<PeerId, Pair>, role: Role, seen: map<PeerId, nat>, now: nat)
    requires n <= |peers|
    ensures var acts := OpenDeeds(peers, n, known, role, seen, now);
            && (forall i | 0 <= i < n && Opens(peers, i, known) :: OpenedOnce(acts, peers[i], role, SeenAt(seen, peers[i].id, now)))
            && (forall m | 0 <= m < |acts| && acts[m].OpenSession? :: OpensSomewhere(peers, n, known, acts[m].view))
            && (forall m | 0 <= m < |acts| :: acts[m].OpenSession? || acts[m].StartPunch? || acts[m].Arm?)
  {
    if n > 0 {
      OpensExactly(peers, n - 1, known, role, seen, now);
      var before := OpenDeeds(peers, n - 1, known, role, seen, now);
      var peer := peers[n - 1];
      if Opens(peers, n - 1, known) {
        assert OpenDeeds(peers, n, known, role, seen, now) ==
               before + [OpenSession(peer, role, SeenAt(seen, peer.id, now)), PunchOf(peer)];
        hide OpenDeeds, Opens;
        OneMoreOpened(peers, n, known, role, seen, now, before);
      } else {
        assert before + [] == before;
        assert OpenDeeds(peers, n, known, role, seen, now) == before;
        hide OpenDeeds, Opens;
        forall m | 0 <= m < |before| && before[m].OpenSession?
          ensures OpensSomewhere(peers, n, known, before[m].view)
        {
          assert OpensSomewhere(peers, n - 1, known, before[m].view);
        }
      }
    }
  }

  ghost predicate OpensSomewhere(peers: seq<PeerView>, n: nat, known: map<PeerId, Pair>, view: PeerView)
    requires n <= |peers|
  {
    exists i :: 0 <= i < n && Opens(peers, i, known) && peers[i] == view
  }

  lemma OneMoreOpened(peers: seq<PeerView>, n: nat, known: map<PeerId, Pair>, role: Role, seen: map<PeerId, nat>, now: nat, before: seq<Action>)
    requires 0 < n <= |peers| && Opens(peers, n - 1, known)
    requires forall i | 0 <= i < n - 1 && Opens(peers, i, known) :: OpenedOnce(before, peers[i], role, SeenAt(seen, peers[i].id, now))
    requires forall m | 0 <= m < |before| && before[m].OpenSession? :: OpensSomewhere(peers, n - 1, known, before[m].view)
    ensures var peer := peers[n - 1];
            var acts := before + [OpenSession(peer, role, SeenAt(seen, peer.id, now)), PunchOf(peer)];
            && (forall i | 0 <= i < n && Opens(peers, i, known) :: OpenedOnce(acts, peers[i], role, SeenAt(seen, peers[i].id, now)))
            && (forall m | 0 <= m < |acts| && acts[m].OpenSession? :: OpensSomewhere(peers, n, known, acts[m].view))
  {
    hide SeenAt;
    var peer := peers[n - 1];
    var acts := before + [OpenSession(peer, role, SeenAt(seen, peer.id, now)), PunchOf(peer)];
    NoEarlier(peers, n, known, before);
    forall i | 0 <= i < n && Opens(peers, i, known)
      ensures OpenedOnce(acts, peers[i], role, SeenAt(seen, peers[i].id, now))
    {
      if i == n - 1 {
        assert acts[|before|] == OpenSession(peer, role, SeenAt(seen, peer.id, now)) && acts[|before| + 1] == PunchOf(peer);
      } else {
        assert peers[i].id != peer.id by {
          assert PunchReady(peers[i]) && !ReadyBefore(peers, n - 1, peer.id);
        }
        var base := SeenAt(seen, peers[i].id, now);
        var m :| 0 <= m < |before| - 1 && before[m] == OpenSession(peers[i], role, base) && before[m + 1] == PunchOf(peers[i]);
        assert acts[m] == before[m] && acts[m + 1] == before[m + 1];
      }
    }
    forall m | 0 <= m < |acts| && acts[m].OpenSession?
      ensures OpensSomewhere(peers, n, known, acts[m].view)
    {
      if m < |before| {
        assert OpensSomewhere(peers, n - 1, known, before[m].view);
      }
    }
  }

  // A peer that opens now was not opened before.
  lemma NoEarlier(peers: seq<PeerView>, n: nat, known: map<PeerId, Pair>, before: seq<Action>)
    requires 0 < n <= |peers| && Opens(peers, n - 1, known)
    requires forall m | 0 <= m < |before| && before[m].OpenSession? :: OpensSomewhere(peers, n - 1, known, before[m].view)
    ensures forall m | 0 <= m < |before| && before[m].OpenSession? :: before[m].view.id != peers[n - 1].id
  {
    forall m | 0 <= m < |before| && before[m].OpenSession?
      ensures before[m].view.id != peers[n - 1].id
    {
      var i :| 0 <= i < n - 1 && Opens(peers, i, known) && peers[i] == before[m].view;
      assert PunchReady(peers[i]) && !ReadyBefore(peers, n - 1, peers[n - 1].id);
    }
  }

  // ---------------------------------------------------------------- nobody's leaving is forgotten

  lemma {:induction false} UnreportedBefore(trace: seq<Happening>, i: nat)
    requires i <= |trace| && Unreported(trace).Some?
    ensures Unreported(trace[..i]).Some?
    decreases |trace|
  {
    if i == |trace| {
      assert trace[..i] == trace;
    } else {
      var before := trace[..|trace| - 1];
      UnreportedBefore(before, i);
      assert before[..i] == trace[..i];
    }
  }

  // The attempt ended here, or a successful report was taken in that carried this id.
  ghost predicate Settles(trace: seq<Happening>, k: nat, peer: PeerId)
    requires k < |trace|
  {
    trace[k].Over? || (trace[k].Delivered? && exists ids :: JustReported(trace[..k], ids) && peer in ids)
  }

  ghost predicate SettledAfter(trace: seq<Happening>, i: nat, peer: PeerId) {
    exists k :: i < k < |trace| && Settles(trace, k, peer)
  }

  // Main result: who left is unreported until the attempt ends or a report that carried the id succeeds.
  lemma {:induction false} KeptUntilReported(trace: seq<Happening>, i: nat, peer: PeerId)
    requires Unreported(trace).Some? && i < |trace| && trace[i] == Left(peer)
    ensures peer in Unreported(trace).value || SettledAfter(trace, i, peer)
    decreases |trace|
  {
    var n := |trace| - 1;
    var before := trace[..n];
    var h := trace[n];
    assert trace == before + [h];
    UnreportedBefore(trace, n);
    UnreportedGrows(before, h);
    if i < n {
      KeptUntilReported(before, i, peer);
      if SettledAfter(before, i, peer) {
        var k :| i < k < n && Settles(before, k, peer);
        assert trace[..k] == before[..k];
        assert Settles(trace, k, peer);
      } else if peer !in Unreported(trace).value {
        assert Settles(trace, n, peer);
      }
    }
  }

  // Main result: every report carries all that is unreported when it is sent.
  lemma ReportsCarryAll(trace: seq<Happening>, k: nat)
    requires Unreported(trace).Some? && k < |trace| && IsSubmit(trace[k]) && trace[k].action.body.ReportBody?
    ensures Unreported(trace[..k]) == Some(IdsOf(trace[k].action.body.departed))
  {
    UnreportedBefore(trace, k);
    UnreportedBefore(trace, k + 1);
    assert trace[..k + 1] == trace[..k] + [trace[k]];
    UnreportedGrows(trace[..k], trace[k]);
  }
}
