# Sangtachi: a model of the tunnel engine and the room service

Sangtachi connects up to five machines of one room directly over UDP. A room service hands out
addresses and tells peers of each other; each client finds its public address with STUN, punches
through, and then carries IPv4 packets to its peers in an encapsulation with sessions, epochs and an
anti-replay window. This project models the parts of that system with the most state and branching,
and proves what they rely on but never check.

How the modules fit together:

- `Replay`, `SessionSpec`, `SessionSafety`, `SessionPaths`, `Session`: the anti-replay window over
  32-bit numbers that wrap, and the state machine of one peer session. `SessionSpec` has the session
  as functions on a value; `SessionSafety` and `SessionPaths` prove what every run keeps; `Session`
  is the object that updates its fields in place and is proved to do what `SessionSpec` says.
- `SessionReception`, `SessionSending`: what one call on a session means, without its code: which packets
  are accepted and what is done with them, what reaches the sink, who is answered what, and every datagram
  that polling, punching, closing and sending produce.
- `Epochs`, `TunnelSpec`, `TunnelSafety`, `TunnelCalls`, `Tunnel`: retired epochs and nonces, and the table of
  sessions with its routes, arranged in the same way; `TunnelCalls` says what each call on the table means.
- `RoomTable`, `RoomService`, `RoomSafety`, `RoomAnswers`, `Store`: the table of the room service with its
  conditional transactions, the five operations as small programs whose reads may be stale, and what
  holds after every interleaving of them. `RoomAnswers` says what each request is told and what each write
  changes. `Store` is the object that performs the writes.
- `StunSpec`, `StunSafety`, `StunAnswers`, `Stun`: the two-slot scheduler of STUN queries on a shared timer
  set, and the mappings it gathers.
- `Timers`: the timer set, whose callbacks add and cancel timers while a pass is under way.
- `Lobby`: the object that turns commands, replies, timers and session events into actions, each with its
  exact list of actions, and the record of all of them with its laws.
- `Ring`: the single-producer single-consumer ring, as separate atomic steps that interleave.
- `Packet`, `RosterPublisher`, `RosterReception`: the packet codec, the host's roster publisher, and what a player's
  session makes of the rosters that reach it.
- `Utf8`, `Json`, `JsonParser`, `JsonRoundTrip`, `JsonCanonical`, `JsonGrammar`: the JSON reader and writer
  of RFC 8259 with UTF-8 as in section 4 of RFC 3629, and the grammar the reader is proved to accept.
- `Http`, `HttpRoundTrip`, `HttpAnswers`: HTTP framing as both sides do it (section 5 of RFC 9112), and
  which heads each side takes or refuses, said of their lines.
- `Bytes`, `Ipv4`: big-endian numbers, the receive check of inner packets, and the checksums of RFC 1071
  with section 3.1 of RFC 791.

Clocks, random draws, socket outcomes and the order in which things arrive are inputs, quantified over
in every statement. Where an object changes state in place, its methods say that the new state is a
function of the old one, and the theorems are about that function over whole runs.

## Model

| member | source | states |
|---|---|---|
| `Replay.IsNewerIsAntisymmetric` | client/include/sangtachi/tunnel/replay.hpp:22-24 | of two different numbers exactly one is newer, except for two that lie half the cycle apart, where neither is |
| `Replay.AcceptRefinesSet` | client/src/tunnel/replay.cpp:19-121 | one call against a set of unbounded positions: a number is accepted if and only if its position is within 64 of the highest and not yet in the set, it advances the window if and only if it is above all of them, and window and set stand for each other again afterwards |
| `Replay.RunRefinesSet` | client/src/tunnel/replay.cpp:19-121 | after every sequence of calls since a reset, each of the 64 bits is set exactly when the position that far back was accepted, and the highest number is the first one plus the distance, modulo 2^32 |
| `Replay.NoPositionAcceptedTwice` | client/src/tunnel/replay.cpp:19-121 | no position is accepted twice in any sequence of numbers, however they repeat, wrap or arrive out of order |
| `Replay.UnseenWithinWindowIsAccepted` | client/src/tunnel/replay.cpp:19-64 | at any moment a number is accepted if and only if its position lies in the window and has not been accepted |
| `Replay.ReplayWindow.CheckNumber` | client/src/tunnel/replay.cpp:19-64 | the read-only check of the object gives the decision of the proved window |
| `Replay.ReplayWindow.Commit` | client/src/tunnel/replay.cpp:66-105 | a decision is applied only if the present state would still make it, and then records exactly its position; otherwise nothing changes |
| `Replay.ReplayWindow.AcceptNumber` | client/src/tunnel/replay.cpp:107-114 | check and commit in one call are one step of the proved window |
| `SessionSafety.EveryRunIsSafe` | client/src/peer/session.cpp:271-497 | after every run from the start: keepalive, ping and idle timers are armed exactly in CONNECTED, hello and punch timers exactly while punching has begun and is not CONNECTED; a loss baseline exists exactly when both acks do; the reported phases form a legal path, never from PUNCHING straight to CONNECTED; accepted never exceeds expected; at most eight epochs were abandoned |
| `SessionSafety.StepKeeps` | client/src/peer/session.cpp:305-340 | each packet, timer pass, punch start, close and data send keeps the invariant from which the above follows |
| `SessionSafety.LossNeverUnderflows` | client/src/peer/session.cpp:86-93 | the unsigned subtraction of the loss report never wraps: the packets counted have distinct positions between the baseline and the highest |
| `SessionSafety.TerminalIsAbsorbing` | client/src/peer/session.cpp:359-424 | once a session has failed or closed no event changes its phase, timers, flags or reports |
| `SessionSafety.PunchEndsWithin90Seconds` | client/src/peer/session.cpp:305-497 | a session polled at its deadlines that never connects is over within 10 s times 1 + 8 renegotiations of its punch start |
| `SessionPaths.RefillIsIdeal` | client/src/peer/session.cpp:127-137 | the lazy refill with its clamped elapsed time is the ideal bucket: growth by the refill rate, stopped at the capacity |
| `SessionPaths.RefillComposes` | client/src/peer/session.cpp:127-137 | refilling at any moment in between changes nothing |
| `SessionPaths.EveryRunIsRateLimited` | client/src/peer/session.cpp:123-238 | over every interval of every run whose clock does not go back, datagrams to addresses that were neither candidates nor the peer endpoint number at most 10 plus 5 per second, and the probe table keeps at most four distinct addresses in the order of registration |
| `SessionPaths.EndpointProvenance` | client/src/peer/session.cpp:448-662 | the peer endpoint is always a supplied candidate or an address that earlier in that run echoed, from itself and in time, the probe nonce sent to it |
| `Session.Session.ReceivePacket` | client/src/peer/session.cpp:499-740 | one packet changes the object, the payloads handed to the sink included, exactly as the session step says, with the same verdict; what that step means is stated by the rows of `SessionReception` |
| `SessionReception.ReceiveMeans` | client/src/peer/session.cpp:499-740 | for every state and packet: it is accepted exactly when the session is live and the packet is of this peer and epoch (or echoes a probe), new and well formed, and then its mark, acks, endpoint, timers and answer are what its type asks for; a hello of a peer that began again starts the session over; any other packet is dropped and leaves only its mark in the window |
| `SessionReception.InboxGrowsExactly` | client/src/peer/session.cpp:619-731 | the sink gets exactly that payload, or nothing: it gets it if and only if the session is connected, the packet is data of the pinned epoch, its number is new, its inner packet passes the check and there is a sink |
| `SessionReception.DeliversNewPositions` | client/src/peer/session.cpp:561-731 | the same in unbounded positions: what is delivered is neither a position accepted before nor one behind the window |
| `SessionReception.InboxIsDelivered` | client/src/peer/session.cpp:499-740 | over every run the sink holds the accepted payloads, each once, in the order they came |
| `SessionReception.AnswersAreRight` | client/src/peer/session.cpp:225-740 | over every state and packet: a pong is sent only to the source of a ping and carries its id, a hello-ack only to the source of a hello and carries its nonce, at most one of the two; and a ping or hello that is accepted, from a source that is known or that a token pays for, gets its answer first |
| `SessionReception.AckIsTakenExactly` | client/src/peer/session.cpp:619-690 | the ack of our hello is taken exactly from a new ack of our attempt nonce that is no probe echo, and lost exactly when the peer begins again |
| `SessionReception.LearnsExactly` | client/src/peer/session.cpp:448-662 | an endpoint is learned exactly from an accepted packet newer than all before, sent from a known address or answering a probe |
| `SessionReception.DropsAreTrue` | client/src/peer/session.cpp:499-740 | each reason to drop a packet is given exactly for the packets it is true of |
| `SessionReception.GateDecides` | client/src/peer/session.cpp:519-600 | which packets the checks of epoch and source let through, and which of them begin the session over |
| `SessionReception.RenegotiateMeans` | client/src/peer/session.cpp:462-497 | a session that begins again pins the new epoch, puts the old one on record, forgets acks, pings and timers of a connection, starts punching anew, and keeps what was delivered, its generation, endpoint and loss totals |
| `SessionSending.PollMeans` | client/src/peer/session.cpp:215-339 | what one pass of the timers does: an attempt out of time fails with the cause its evidence names, a silent connection is dropped, and otherwise each due timer sends just its own datagrams, to all its addresses, and starts again |
| `SessionSending.StartPunchMeans` | client/src/peer/session.cpp:215-286 | the first punch of a live attempt sends one hello to every candidate and starts both timers; any other call sends nothing |
| `SessionSending.CloseMeans` | client/src/peer/session.cpp:399-441 | closing tells a learned peer, with the reason its phase gives, and ends the session; a session that is over stays as it was |
| `SessionSending.SendDataMeans` | client/src/peer/session.cpp:201-213 | data goes to the learned endpoint, or while none is learned to each candidate in turn until the socket refuses one; true comes back exactly if none was refused |
| `Session.Session.PollAt` | client/src/peer/session.cpp:305-339 | one timer pass changes the object exactly as the proved step says, hello rounds, probe expiry, keepalives and pings included |
| `Session.Session.StartPunching` | client/src/peer/session.cpp:271-286 | starting the punch changes the object exactly as the proved step says, and is refused in the same cases |
| `Session.Session.CloseSession` | client/src/peer/session.cpp:426-441 | closing by the user changes the object exactly as the proved step says |
| `Session.Session.SendInner` | client/src/peer/session.cpp:201-213 | sending data spends a number and tells whether the socket took it, as the proved step says |
| `Session.Session.RenegotiateTo` | client/src/peer/session.cpp:462-497 | a renegotiation resets window, acks, probes and timers as the proved step says, or fails the session when the eight are spent |
| `Session.Session.NextDeadlineOf` | client/src/peer/session.cpp:288-303 | the earliest of the five timers and the oldest probe |
| `Session.Session.LossStats` | client/src/peer/session.cpp:86-93 | the loss report is the one the theorem above bounds |
| `Session.Session.StartProbe` | client/src/peer/session.cpp:149-174 | a probe is registered for an unknown address exactly when the table, the budget and the draw allow it |
| `Session.Session.Spend` | client/src/peer/session.cpp:127-147 | a token is taken for an unverified address, none for a verified one |
| `Epochs.AddKeepsOrder` | client/src/peer/epoch.cpp:50-78 | adding a retired epoch keeps the list distinct, in time order and at most sixteen long, and the epoch just added is found |
| `Epochs.AddAllKeepsOrder` | client/src/peer/epoch.cpp:50-66 | the list stays so through any series of additions whose clock does not go back |
| `Epochs.RetiredForTwoMinutes` | client/src/peer/epoch.cpp:50-78 | a retired epoch is found for two minutes unless sixteen more were retired since |
| `Epochs.RetiredEpochs.AddEntry` | client/src/peer/epoch.cpp:50-66 | the object drops what has expired and an older entry of the same epoch, and makes room, as the list above |
| `Epochs.RetiredEpochs.Has` | client/src/peer/epoch.cpp:68-72 | the object finds an epoch exactly when it is listed and not expired |
| `Epochs.GenerateAttemptNonce` | client/src/peer/epoch.cpp:102-114 | a nonce that is drawn is none that an attempt of the last two minutes used; it gives up only when the source fails |
| `TunnelSafety.RoutesAgree` | client/src/tunnel/tunnel.cpp:135-359 | after every sequence of calls, slot k of the routes names a peer if and only if exactly the active session of that peer has address 10.100.0.k, and at most four ended sessions are kept |
| `TunnelSafety.CreateKeeps` | client/src/tunnel/tunnel.cpp:135-211 | creating a session keeps the table in order, and the nonce it draws is none of those of the attempts that ended since attempts were last registered |
| `TunnelSafety.RegisterFinds` | client/src/tunnel/tunnel.cpp:148-166 | every attempt that ended since the last creation is on the list of retired nonces before a new nonce is drawn |
| `TunnelSafety.CapKeeps` | client/src/tunnel/tunnel.cpp:242-260 | dropping the longest retained sessions leaves at most four and keeps routes and table in step |
| `TunnelSafety.ReceivePins` | client/src/peer/session.cpp:462-497 | a session pins another epoch only from the packet it just received, and then puts the one it had on record as abandoned |
| `TunnelSafety.AbandonedIsRetired` | client/src/tunnel/tunnel.cpp:213-292 | the epoch a packet makes a session abandon is put on the retired list then and there |
| `TunnelSafety.NoFlapping` | client/src/tunnel/tunnel.cpp:262-292 | a datagram of an epoch retired less than 120 s ago, with fewer than sixteen retired since, changes nothing at all |
| `TunnelSafety.AbandonedForTwoMinutes` | client/src/tunnel/tunnel.cpp:213-292 | end to end: once an event of a run has made a session abandon an epoch, then in every longer run a datagram of that epoch within 120 s changes nothing at all, unless sixteen more epochs were retired meanwhile |
| `TunnelSafety.RetiredInOrder` | client/src/peer/epoch.cpp:50-78 | after every sequence of calls the list of retired epochs is distinct, in time order and at most sixteen long |
| `TunnelSafety.SentOnlyWhereRouted` | client/src/tunnel/tunnel.cpp:375-410 | an inner packet leaves only through a connected session whose address is its destination, and only with our own address as its source |
| `TunnelCalls.SendMeans` | client/src/tunnel/tunnel.cpp:375-410 | after every run: an inner packet is refused for the first reason that holds; otherwise it goes to the one connected session of its destination, and the answer is sent if and only if the socket took it |
| `TunnelCalls.DatagramMeans` | client/src/tunnel/tunnel.cpp:262-292 | a datagram goes to the session of its peer unless its epoch is retired or that session is over; that session alone changes, as receiving changes it, and the cap follows |
| `TunnelCalls.TimersMean` | client/src/tunnel/tunnel.cpp:311-334 | a timer pass polls every session, drops those over for two minutes, and of the other ended ones keeps no more than the four that ended last |
| `TunnelCalls.ClosingMeans` | client/src/tunnel/tunnel.cpp:342-359 | closing everything ends every session as its user would; leaving the room leaves none |
| `TunnelCalls.CreateMeans` | client/src/tunnel/tunnel.cpp:135-211 | a session is made exactly for a welcome peer for whom both draws succeed: fresh, with what was asked for, on the route of its address; every other session stays |
| `TunnelCalls.CapMeans` | client/src/tunnel/tunnel.cpp:242-260 | the cap takes only ended sessions, those that ended first, and only above four |
| `Tunnel.Tunnel.CreateASession` | client/src/tunnel/tunnel.cpp:135-211 | the object creates a session, or refuses, exactly as the proved table does |
| `Tunnel.Tunnel.ReceiveDatagram` | client/src/tunnel/tunnel.cpp:262-292 | a datagram changes table, routes and retired lists exactly as the proved step says |
| `Tunnel.Tunnel.RunAllTimers` | client/src/tunnel/tunnel.cpp:311-334 | a timer pass over all sessions, in the order of ids, with the retention cap afterwards |
| `Tunnel.Tunnel.SendInnerPacket` | client/src/tunnel/tunnel.cpp:375-410 | sending an inner packet, with its outcome, as the proved step says |
| `Tunnel.Tunnel.LeaveTheRoom` | client/src/tunnel/tunnel.cpp:349-359 | leaving closes every session, empties the table and gives up our address |
| `Tunnel.Tunnel.CloseEverything` | client/src/tunnel/tunnel.cpp:342-347 | closing every session releases every route |
| `RoomTable.ClassifyCancel` | control-server/controlplane/store.py:114-138 | the loop over the cancellation reasons gives the kind that the rules give, or none when they cannot be read |
| `RoomTable.JoinVerdicts` | control-server/controlplane/store.py:466-491 | the verdict on a cancelled join: a taken nonce explains everything, then the room, the name, the address and the peer id, each only when nothing before it failed |
| `RoomTable.JoinVerdictsAreTrue` | control-server/controlplane/store.py:466-491 | whatever else befalls the transaction, each verdict is true of the table it met, and JOINED means that all conditions held and all items were written |
| `RoomTable.AppliedMeansAllHold` | control-server/controlplane/store.py:341-352 | a transaction writes only when every one of its conditions holds |
| `RoomTable.RoomsAreSmall` | control-server/controlplane/store.py:466-491 | a table that keeps the invariant has at most five peers in any room |
| `RoomTable.PeersAreDistinct` | control-server/controlplane/store.py:438-491 | in such a table two peers have different nonces, and in one room different addresses and lower-cased names |
| `RoomTable.ClaimKeeps` | control-server/controlplane/store.py:438-491 | a create or join that is applied keeps the invariant and takes nothing from other requests |
| `RoomTable.RegisterKeeps` | control-server/controlplane/store.py:493-499 | registering candidates keeps the invariant |
| `RoomTable.DeleteKeeps` | control-server/controlplane/store.py:501-542 | deleting a peer that is not the host, with all the items that point to it, keeps the invariant |
| `RoomTable.PairKeeps` | control-server/controlplane/store.py:544-559 | confirming a pair of peers with candidates, one of them the host, keeps the invariant |
| `RoomTable.RenewKeeps` | control-server/controlplane/store.py:561-582 | renewing the lease of a room keeps the invariant |
| `RoomService.StepUsesFuel` | control-server/controlplane/ops.py:238-503 | every request ends within a number of its own steps known when it starts, however others interleave; the join walk in particular. What it is then told is stated by the rows of `RoomAnswers` |
| `RoomSafety.TableInvariant` | control-server/controlplane/store.py:438-559 | after every interleaving of requests with reads as stale as may be: address, name and nonce items correspond one to one to the peers, a pair item exists only between two peers with candidates, at most five peers hold a room, and its host is among them |
| `RoomSafety.RepliesAgree` | control-server/controlplane/ops.py:238-322 | whenever a create or join is answered, the first of a run included, its peer is in the table as answered, no other peer has that nonce, and every answer so far to the same nonce gave the same room, peer, token and address unless that peer was removed |
| `RoomSafety.NothingLeftBehind` | control-server/controlplane/ops.py:391-425 | a peer that was removed leaves no address, name, nonce or pair item behind |
| `RoomSafety.DeletingKeeps` | control-server/controlplane/ops.py:391-442 | a view read earlier is good enough to delete by: a peer that is still there is the one that was read |
| `RoomSafety.RoomFullMeansAllTaken` | control-server/controlplane/ops.py:264-302 | a join is answered room_full only after each of the four addresses of one room was tried by this very request on a table that held it |
| `RoomSafety.ReadyMeansRegistered` | control-server/controlplane/ops.py:496-503 | whatever a query finds, a peer told ready has candidates, so has the caller, and one of the two is the host |
| `RoomAnswers.GetPeersMeans` | control-server/controlplane/ops.py:341-361 | for every table and every order a query may list: the host is told of everyone else, each exactly once, anyone else of exactly the host; each element has the address and name of that peer, is ready if and only if the pair of the two is confirmed, and then has its candidates; every other caller is refused for the first reason that holds |
| `RoomAnswers.ReadBackMeans` | control-server/controlplane/ops.py:384-389 | a report is answered with everyone else in the room as the table has it at the end, described in that way, and with just what it released and confirmed |
| `RoomAnswers.ReportIsTrue` | control-server/controlplane/ops.py:363-467 | over every interleaving of requests: an id is answered released only if this very report removed that peer, and confirmed only if it wrote that pair |
| `RoomAnswers.ReportStartMeans` | control-server/controlplane/ops.py:363-383 | only the host of a room may report, and the report goes over everyone it read, each once |
| `RoomAnswers.DepartedLeaves` | control-server/controlplane/ops.py:391-442 | a peer the host calls gone is removed with all that points to it, if it is there; never the host itself |
| `RoomAnswers.ReclaimLeaves` | control-server/controlplane/ops.py:104-425 | a place is taken back exactly when its peer had no candidates for ninety seconds, as read and as it is |
| `RoomAnswers.ConfirmPairs` | control-server/controlplane/ops.py:94-467 | a pair is confirmed exactly when both have candidates and no pair, as read and as it is |
| `RoomAnswers.RenewAnswers` | control-server/controlplane/ops.py:469-477 | the report renews the lease for its full time, or ends if it has run out |
| `RoomAnswers.JoinAnswers` | control-server/controlplane/ops.py:264-302 | the step of a join that writes: the place it was given, or the first reason against it, going on exactly where another address or peer id may do |
| `RoomAnswers.CreateAnswers` | control-server/controlplane/ops.py:238-262 | the same of a create: a used nonce is read again, a used room id drawn again up to four times |
| `RoomAnswers.ReplayAnswers` | control-server/controlplane/ops.py:304-322 | a repeated request is answered with the place its nonce was given, as long as the room stands |
| `RoomAnswers.RegisterAnswers` | control-server/controlplane/ops.py:326-339 | registering is refused for the first reason that holds, before the write and at it |
| `RoomAnswers.ExpiresInMeans` | control-server/controlplane/ops.py:58-62 | whole seconds rounded up, none once the lease is over |
| `RoomAnswers.RegisterMeans` | control-server/controlplane/store.py:493-499 | the candidates are stored at that peer, and nothing else changes, if and only if the token is its own |
| `RoomAnswers.RenewMeans` | control-server/controlplane/store.py:561-582 | the lease is written if and only if it has not run out, and the answer says which |
| `RoomAnswers.ReleaseMeans` | control-server/controlplane/store.py:501-525 | the peer goes with its address, name, nonce and its pair with the host, and nothing else, if and only if it is there |
| `RoomAnswers.ReclaimMeans` | control-server/controlplane/store.py:527-542 | the peer goes with its address, name and nonce, and nothing else, if and only if it has registered nothing for ninety seconds |
| `RoomAnswers.ConfirmMeans` | control-server/controlplane/store.py:544-559 | a pair is written if and only if both have candidates and there is none yet, and the answer tells the three cases apart |
| `RoomAnswers.JoinWrites` | control-server/controlplane/store.py:466-491 | a join that writes adds just the four items of its peer, to a room that is open |
| `RoomAnswers.CreateWrites` | control-server/controlplane/store.py:438-464 | a create that writes adds a room with its full lease and its host, under an id nobody uses |
| `RoomAnswers.CreateVerdicts` | control-server/controlplane/store.py:438-464 | the order of the verdicts of a create |
| `Store.Store.CreateARoom` | control-server/controlplane/store.py:438-464 | the five items are written together or not at all, with the verdict of the proved transaction |
| `Store.Store.JoinARoom` | control-server/controlplane/store.py:466-491 | the four items are written together or not at all, with the verdict of the proved transaction |
| `Store.Store.Register` | control-server/controlplane/store.py:493-499 | the conditional update of a peer's candidates |
| `Store.Store.Release` | control-server/controlplane/store.py:501-525 | the transaction that removes a departed peer and all that points to it, on the names and nonce its caller read |
| `Store.Store.Reclaim` | control-server/controlplane/store.py:527-542 | the transaction that removes a peer that did not register in time |
| `Store.Store.Confirm` | control-server/controlplane/store.py:544-559 | the conditional write of a pair item |
| `Store.Store.RenewRoom` | control-server/controlplane/store.py:561-582 | the conditional update of the lease |
| `StunSafety.StageIsOrderly` | client/src/network/stun_client.cpp:200-406 | for every number of servers and every pattern of answers: at most four sends to any server, success exactly with two mappings, of two different servers, and no timer of the stage left once it is done |
| `StunSafety.AskedInOneGo` | client/src/network/stun_client.cpp:200-290 | a server whose turn has passed and that is not being asked is never asked again, so each is queried at most once |
| `StunSafety.StageEndsInTime` | client/src/network/stun_client.cpp:127-342 | with timers delivered at their deadlines the stage is done by start + 5000 * ceil(n / 2) ms |
| `StunSafety.OthersUntouched` | client/src/network/stun_client.cpp:230-252 | the stage leaves timers of other owners in the shared set alone |
| `StunAnswers.MappingsAreAnswers` | client/src/network/stun_client.cpp:344-406 | over every run, from the events alone: the mappings are, in order, one for each mapped answer to a query that was in flight when it came, with its server and its endpoint; the stage has succeeded if and only if two such answers have come |
| `StunAnswers.NoAnswerIsLost` | client/src/network/stun_client.cpp:344-406 | where identifiers do not repeat, a mapped answer to any query in flight is recorded as that of its own server |
| `StunAnswers.StepDecides` | client/src/network/stun_client.cpp:254-406 | one event adds the mapping it brings and no other |
| `StunAnswers.RetryAsksAgain` | client/src/network/stun_client.cpp:193-330 | a retry sends once more and waits longer, up to the fourth send |
| `StunAnswers.DeadlineGivesUp` | client/src/network/stun_client.cpp:230-342 | a deadline ends that query with its timers and lets the next server have the slot |
| `Stun.StunClient.StartStage` | client/src/network/stun_client.cpp:292-304 | starting with too few servers fails at once, otherwise two queries begin, as the proved step says |
| `Stun.StunClient.RefillSlots` | client/src/network/stun_client.cpp:254-290 | the refill loop leaves the object as the proved refill does |
| `Stun.StunClient.OnTimerName` | client/src/network/stun_client.cpp:306-342 | a retry or a deadline changes the object exactly as the proved step says |
| `Stun.StunClient.OnDatagramIn` | client/src/network/stun_client.cpp:344-406 | a datagram changes the object, its mappings included, exactly as the step says; what the step records is stated by the rows of `StunAnswers` |
| `Timers.PassMeans` | client/src/timer.cpp:110-156 | one pass serves exactly the timers due when it began that no earlier callback of the pass cancelled, each once and in the order of addition; none that a callback added; and no old timer is left due unless its period is zero |
| `Timers.ServedUnlessCancelled` | client/src/timer.cpp:110-156 | a due timer is served, with its name and the time since it last fired, if and only if no callback that ran before its turn cancelled its name |
| `Timers.PassLeaves` | client/src/timer.cpp:122-147 | what is left of the old timers: those that were not due, and periodic ones with a whole period to go from now |
| `Timers.GoneIsNotServed` | client/src/timer.cpp:118-129 | a cancelled timer does not come back: one added later under the same name is another one |
| `Timers.PerformAllKeeps` | client/src/timer.cpp:44-95 | whatever a callback adds and cancels, names stay unique among live timers |
| `Timers.TimerSet.RunExpired` | client/src/timer.cpp:110-156 | the object, which puts off removing the timer being served, does exactly what a set does in which a cancelled timer is gone at once |
| `Timers.TimerSet.Add` | client/src/timer.cpp:44-73 | a timer is added unless its name is live, and never replaces one |
| `Timers.TimerSet.Cancel` | client/src/timer.cpp:75-95 | the live timer of that name is gone, whether it is being served or not |
| `Timers.TimerSet.Earliest` | client/src/timer.cpp:97-108 | the earliest deadline of the live timers, found by the loop |
| `Timers.NextTimeout` | client/src/timer.cpp:13-25 | no wait exactly when the deadline is here, never beyond it, and never the endless wait by accident |
| `Timers.TimerSet.Wait` | client/src/timer.cpp:13-108 | the wait is zero if and only if a pass would serve a timer now, so the loop neither spins nor oversleeps |
| `Lobby.OneRequestAtATime` | client/src/control/lobby.cpp:466-512 | in the record of every lobby, between any two submitted requests the first was answered |
| `Lobby.NoDeadlineLost` | client/src/control/lobby.cpp:615-639 | in that record, between two armings of a timer name it fired or was cancelled, so no add is ever rejected |
| `Lobby.KeptUntilReported` | client/src/control/lobby.cpp:839-960 | in that record, the id of a pair that ended at the host is unreported from then on until the attempt ends or a report that carried it succeeds |
| `Lobby.ReportsCarryAll` | client/src/control/lobby.cpp:481-499 | in that record, every report submitted carries exactly the ids that are unreported at that moment |
| `Lobby.Lobby.ActiveMeansOpened` | client/src/control/lobby.cpp:812-932 | at every lobby, a peer is an active pair if and only if the owner was told to open its session, in this role and with the view it was listed with, and neither its end nor that of the attempt follows |
| `Lobby.OpenMeansOpened` | client/src/control/lobby.cpp:568-960 | in the record of every lobby, the open sessions are those opened and not ended since, with the view and role they were opened with |
| `Lobby.OpensExactly` | client/src/control/lobby.cpp:839-932 | the actions of a successful report open exactly one session for each peer listed ready with candidates and in no pair, even if listed twice, each followed by its punch, at once or by a timer for what is left of the delay, and none for any other peer |
| `Lobby.FailDeedsMean` | client/src/control/lobby.cpp:514-566 | what a failure tells, cancels and leaves, in every role and stage |
| `Lobby.PartingMeans` | client/src/control/lobby.cpp:568-613 | the end of an attempt cancels exactly what is armed and leaves the room last |
| `Lobby.Lobby.Finish` | client/src/control/lobby.cpp:134-155 | every action list has at most one submitted request and it is last |
| `Lobby.Lobby.OnCommand` | client/src/control/lobby.cpp:336-464 | the exact actions of each command; nothing is submitted while a request is pending; leaving returns to the lobby with nothing armed |
| `Lobby.Lobby.OnReply` | client/src/control/lobby.cpp:655-909 | the exact actions of each reply: after a successful report or a ready answer, one session opened for every listed peer that is ready with candidates and in no pair, each with its punch now or after the rest of its delay; an unreported id goes only with a successful report that carried it or with the end of the attempt; a late reply to an ended attempt does nothing |
| `Lobby.Lobby.OnSubmitDropped` | client/src/control/lobby.cpp:641-653 | a dropped request counts as answered and fails the attempt it belonged to |
| `Lobby.Lobby.OnStunDone` | client/src/control/lobby.cpp:748-780 | a failed stage fails the attempt; a successful one leads to one registration, at once or when the channel is free |
| `Lobby.Lobby.OnTimer` | client/src/control/lobby.cpp:1012-1048 | the exact actions of each timer: a punch for a pair that is open, a report or poll that is due; one that is not armed does nothing, one that fires is armed no more |
| `Lobby.Lobby.OnSessionEnded` | client/src/control/lobby.cpp:935-980 | an ended pair is kept for reporting, at most four of them, and earlier ones are not lost |
| `Lobby.Lobby.OnSessionOpenFailed` | client/src/control/lobby.cpp:982-1000 | a session that could not be opened ends its pair in the same way |
| `Lobby.Lobby.OnShutdown` | client/src/control/lobby.cpp:1002-1010 | shutdown returns to the lobby and submits nothing |
| `Lobby.Lobby.EndAttempt` | client/src/control/lobby.cpp:568-613 | the end of an attempt leaves nothing armed, nothing due and no pair, and disowns the request under way |
| `Lobby.Lobby.SendHostReport` | client/src/control/lobby.cpp:481-499 | a report that is sent carries every id that is unreported |
| `Lobby.Lobby.ArmTimer` | client/src/control/lobby.cpp:615-622 | arming a name that is armed cancels it first, so that the timer set never refuses |
| `Ring.RingIsABoundedQueue` | client/include/sangtachi/spsc_ring.hpp:36-58 | under every interleaving of the separate loads, slot accesses and index stores of both sides, the operations are those of a bounded FIFO: a push is refused only when capacity values are held, a pop finds nothing only when none is, what came out is a prefix of what went in, and refusals are counted |
| `Ring.WriteSparesUnread` | client/include/sangtachi/spsc_ring.hpp:36-47 | the slot the producer writes holds no value that is still to be read |
| `Ring.EmptyAndFull` | client/include/sangtachi/spsc_ring.hpp:36-58 | the indices meet exactly when the ring is empty and are one apart exactly when it is full |
| `Ring.SpscRing.TryPush` | client/include/sangtachi/spsc_ring.hpp:36-47 | the object takes a value exactly while fewer than capacity are held; a refusal adds one to the drop counter (client/src/console.cpp:14-25) |
| `Ring.SpscRing.TryPop` | client/include/sangtachi/spsc_ring.hpp:49-58 | the object gives the oldest value not yet given, and none exactly when there is none |
| `Packet.BuildThenCheck` | client/src/tunnel/packet.cpp:151-217 | a packet is built exactly when its payload length fits its type, and is accepted with the same fields and payload |
| `Packet.CheckThenBuild` | client/src/tunnel/packet.cpp:151-217 | a datagram that is accepted is the one that would be built from its fields and payload |
| `Packet.EncodeThenDecode` | client/src/tunnel/packet.cpp:295-406 | every roster the encoder accepts is read back unchanged by a player that has not moved past its generation |
| `Packet.DecodeThenEncode` | client/src/tunnel/packet.cpp:295-371 | a payload is accepted as a roster if and only if a host sent it, it is not stale, and it is the encoding of a valid roster |
| `Packet.EncodeRoster` | client/src/tunnel/packet.cpp:373-406 | writes exactly the encoding, or nothing when the roster is not valid or does not fit |
| `Packet.Decode` | client/src/tunnel/packet.cpp:295-371 | the walk with a moving position gives the verdict of the relation above |
| `RosterPublisher.Publisher.RunAt` | client/src/tunnel/roster_publisher.cpp:154-183 | one run sends a roster, once, to exactly the connected sessions that are new, that a change reaches, or whose schedule is due; every roster that leaves has the present generation and shows the host, then every peer by its id, address and the first bytes of its name, with its bit set if and only if it is connected |
| `RosterPublisher.Publisher.Refresh` | client/src/tunnel/roster_publisher.cpp:76-134 | the roster shows the present peers by index: the host with its bit set, then each peer with its own fields and its bit set if and only if it is connected; the generation moves, by one, exactly when the members changed or a change was forced; and a change goes to every connected session |
| `RosterPublisher.Publisher.SendTo` | client/src/tunnel/roster_publisher.cpp:95-106 | what is sent is the present roster with the present generation, and the next is due a period later |
| `RosterPublisher.AcceptedArePublished` | client/src/tunnel/roster_publisher.cpp:37-183 | under any loss, duplication and reordering, the generations a player accepts never fall and each roster it accepts was published by the host under that generation |
| `RosterPublisher.SameGenerationSameRoster` | client/src/tunnel/roster_publisher.cpp:76-134 | rosters accepted under one generation, by one player or by two, have the same members |
| `RosterReception.GenerationNeverFalls` | client/src/peer/session.cpp:619-726 | over every run of a session, renegotiations included, the roster generation it holds never falls from one moment to a later one |
| `RosterReception.GenerationIsPublished` | client/src/peer/session.cpp:619-726 | if every roster that reaches a session was published, in whatever order and however often, the generation it holds is always one under which the host published |
| `RosterReception.RenegotiateHolds` | client/src/peer/session.cpp:462-497 | a renegotiation forgets the epoch but keeps the roster generation |
| `Utf8.LengthIsExact` | client/src/control/json.cpp:131-177 | a character of n bytes is accepted if and only if those bytes are the encoding of a Unicode scalar value: no surrogates, no overlong forms, nothing beyond U+10FFFF |
| `Utf8.EncodeThenDecode` | client/src/control/json.cpp:131-197 | the encoding of a scalar value is one character and means that value |
| `Utf8.DecodeThenEncode` | client/src/control/json.cpp:131-197 | an accepted character is the encoding of what it means |
| `Utf8.IsValid` | client/src/control/json.cpp:199-211 | the loop over a text accepts exactly the texts made of such characters |
| `JsonRoundTrip.WriteThenRead` | client/src/control/json.cpp:248-686 | for every value that can be written within 4096 bytes, reading what was written gives that value |
| `JsonCanonical.ReadThenWrite` | client/src/control/json.cpp:248-686 | for every text that is read, without fractions, exponents or integers beyond 64 bits, what is written is no longer than the text and is read as the same value |
| `JsonGrammar.SpelledIsRead` | client/src/control/json.cpp:252-576 | every text the grammar of RFC 8259 spells, blanks, escapes and surrogate pairs included, is read as the value it spells, within the limits on size and depth |
| `JsonGrammar.ReadIsSpelled` | client/src/control/json.cpp:252-576 | every text that is read is one the grammar spells, with that value |
| `JsonGrammar.CharsAreRead` | client/src/control/json.cpp:406-497 | a string is read as the characters that its plain characters and escapes stand for |
| `JsonGrammar.CharsAreUnits` | client/src/control/json.cpp:406-497 | whatever string is read is made of such characters and escapes |
| `JsonGrammar.EscapeIsRead` | client/src/control/json.cpp:406-466 | each short escape, each four-digit escape in either case and each surrogate pair is read as the character it names |
| `JsonGrammar.NumeralIsRead` | client/src/control/json.cpp:499-575 | a number is read with its sign and exact value, or as one without a value when it has a fraction, an exponent or needs more than 64 bits |
| `JsonGrammar.NumberIsNumeral` | client/src/control/json.cpp:499-575 | whatever number is read has the form of the grammar |
| `Json.Magnitude` | client/src/control/json.cpp:505-530 | the digit loop with its overflow check gives up exactly when the number is beyond the limit |
| `JsonParser.ParseText` | client/src/control/json.cpp:252-583 | the parser that moves a position over the text gives the proved result, errors included |
| `JsonParser.Parser.ReadValue` | client/src/control/json.cpp:293-320 | one value, with the depth limit, leaves position and error as the proved reading does |
| `JsonParser.Parser.ReadString` | client/src/control/json.cpp:468-497 | a string with escapes and surrogate pairs, likewise |
| `JsonParser.Parser.ReadNumber` | client/src/control/json.cpp:499-575 | a number, likewise |
| `JsonParser.Parser.ReadObject` | client/src/control/json.cpp:322-370 | an object, with its refusal of a second member of one name, likewise |
| `JsonParser.WriteText` | client/src/control/json.cpp:589-617 | the writer's loop gives the proved text of a string, or nothing when it is not UTF-8 |
| `Http.VerdictStands` | client/src/control/http.cpp:174-268 | a verdict on a response, once reached, is the same whatever bytes follow |
| `Http.Receive` | client/src/control/exchange.cpp:79-146 | however the stream is cut into chunks the result is that of the whole stream, and at most 6144 bytes are held |
| `Http.CountLength` | client/src/control/http.cpp:77-99 | the digit loop that stops counting at the limit gives the verdict on the whole number |
| `Http.CheckEnds` | client/src/control/http.cpp:188-198 | the scan accepts a head exactly when every CR and LF in it belongs to a CR LF |
| `HttpAnswers.ResponseMeans` | client/src/control/http.cpp:174-268 | of the lines of a head: the client takes a response if and only if no line holds half a line end, the first is a status line, every other is a header line, none is a transfer-encoding and one is a content-length of at most 4096; and each refusal is given exactly where it is the first that is due |
| `HttpAnswers.HeadlessResponse` | client/src/control/http.cpp:174-185 | without a blank line in the first 2048 bytes more is awaited, or the head is refused once they are there |
| `HttpAnswers.RequestMeans` | control-server/controlplane/server.py:84-200 | the server takes a request if and only if its first line is a POST of one of the five paths, its header lines are well formed, none that it knows stands twice, none is a transfer-encoding and one is a content-length of at most 4096, and gives the body that follows; and each refusal is given exactly where it is due |
| `HttpAnswers.HeadlessRequest` | control-server/controlplane/server.py:66-184 | a head that is too large is refused for its first line when that can be judged and is bad, and otherwise for its size |
| `HttpAnswers.SplitIs` | control-server/controlplane/server.py:178-185 | the lines of a head are the one way to cut it at its line ends |
| `HttpRoundTrip.ServerReadsRequest` | client/src/control/http.cpp:125-153 | the server recovers exactly the operation and the body bytes of every request the client builds |
| `HttpRoundTrip.ClientReadsResponse` | control-server/controlplane/server.py:203-214 | the client finds exactly the body of every response the server builds, up to 4096 bytes |
| `Ipv4.FoldResidue` | client/src/testbuild/instrument.cpp:88-103 | folding a sum to 16 bits keeps it modulo 65535 and is zero only for zero |
| `Ipv4.InnerVerdict` | client/src/tunnel/tunnel.cpp:62-97 | an inner packet is accepted if and only if its header is of the plain form, its length is stated, its addresses are those two and its header sums to ones |
| `Ipv4.CheckInner` | client/src/tunnel/tunnel.cpp:62-97 | the check with its summing loop gives that verdict |
| `Ipv4.FillIpv4Checksum` | client/src/tunnel/data_sender.cpp:65-82 | afterwards the header sums to ones, and nothing but the two checksum bytes has changed |
| `Ipv4.MakeSynthetic` | client/src/tunnel/data_sender.cpp:42-63 | a synthetic packet of any size from 20 bytes and any addresses passes the receive check at the other end, and every byte but the checksum is the one the layout gives: headers, ports, lengths, number, time and fill, cut short where the size ends |
| `Ipv4.MakeEchoReply` | client/src/testbuild/instrument.cpp:67-80 | the answer to a packet that passes the receive check passes it at the other end with the addresses swapped, and differs from it only in addresses and mark |
| `Ipv4.ComputeInternetChecksum` | client/src/testbuild/instrument.cpp:88-103 | the loop over words, odd lengths included, gives the checksum of RFC 1071 |
| `Ipv4.MakeIcmpEchoReply` | client/src/testbuild/instrument.cpp:105-149 | the answer to an echo request is valid at both layers for every length, goes back where it came from and keeps identifier, number and data |

## Left out

- Operating system and drivers (Winsock, Wintun, events, console control, DNS, file writing) and the outer loop: inputs to the steps.
- Text for people, log lines, counters, RTT statistics and record lines.
- Weak memory: the loads and stores of the ring are taken as sequentially consistent; their interleavings are all there.
- 64-bit exhaustion: positions, ping ids and clock values are unbounded numbers. The roster generation is a 32-bit number that the model does not carry past its last value.
- Replay.ReplayWindow.Commit: the 64-bit mask is a sequence of 64 booleans, shifts included, not one machine word.
- Random draws and socket outcomes are arbitrary functions or sequences; one that ends stands for a source that fails. Nothing is said of probability or secrecy.
- Session callbacks: what a session tells the tunnel is gathered in its state and taken up by the tunnel after the call, as the tunnel's handlers do inside it.
- Tunnel.Tunnel.ReceiveDatagram: the datagram comes parsed, after the common header check that `Packet.CheckCommon` models on its own (client/src/tunnel/tunnel.cpp:263-270); the notice of a connection change to the roster publisher (line 217) is left out. The sessions of the table are values of `SessionSpec`, so pointers from routes to sessions are peer ids, and iteration over the map of sessions is in rising order of ids.
- Tunnel.Tunnel.RunAllTimers: the roster publisher's run inside the pass and its share in the next deadline (client/src/tunnel/tunnel.cpp:307, 321) are left out; `RosterPublisher` models that run on its own.
- Tunnel.Tunnel.LeaveTheRoom: stopping the roster publisher (client/src/tunnel/tunnel.cpp:358) is left out.
- Store.Store.RenewRoom: the ttl writes to the other items, one by one after the lease (control-server/controlplane/store.py:577-588), are left out; only eviction reads them.
- RoomSafety.RepliesAgree: assumes, as the service does, that a peer id removed from a room is not drawn for that room again; tokens are compared but not assumed secret.
- RoomSafety.TableInvariant: a query is one atomic snapshot and the table does not evict; the ttl attributes, which only eviction reads, and the per-item ttl writes of renew (control-server/controlplane/store.py:577-588) are left out.
- Items that cannot be read back, lenient reads, boto3, throttling retries, asyncio and thread pools; a store call either has the effect of its transaction or fails, with or without effect.
- The request bodies' JSON on the server and its flat validators (names, room ids, candidate hygiene) are preconditions of the requests; the request rate table is left out.
- RoomAnswers.GetPeersMeans: of an element, the punch delay and the time since its pair was confirmed (control-server/controlplane/ops.py:80-82) are left out, and so is the flag that any element is ready.
- RoomAnswers.ReadBackMeans: the seconds left of the lease (line 388) are left out of the answer.
- RoomAnswers.JoinAnswers: is of a write that the store performs without throttling or loss; what a lost answer may leave is in `RoomAnswers.JoinWrites`.
- RoomService: handlers are step machines, not methods, since other requests run between their store calls.
- The STUN message parser: a datagram comes with what the parser says of it.
- Lobby: the timer set is seen through the record of what was armed, cancelled and fired; whether a request body can be built is an arbitrary predicate; the runner's queues between lobby and exchange are left out.
- Lobby.Lobby.OnHostReport: a report lists peers in the order given; which of them the guide announces is left out.
- Timers.TimerSet.RunExpired: a callback's work is an arbitrary list of additions and cancellations; it does not call for another pass, which the timer set forbids.
- The pump of the data sender and the splitting of its arguments.
- JsonGrammar.ReadIsSpelled: which texts are refused is exact; which of the error kinds each refusal gives is what the parser's code says.
- HttpRoundTrip.ServerReadsRequest: stops at the body bytes; the JSON in them is another matter.
- HttpRoundTrip.ClientReadsResponse: the reason phrase is any text of at most 100 bytes without a line end.
- Http.Receive: time-outs and cancellation of an exchange are left out; a closed stream is its end.
- JsonCanonical.ReadThenWrite: fractions, exponents and integers beyond 64 bits are read but have no value that could be written, so texts with them are excluded, as in the source.
- tools/ (deployment, measurement, repository checks).
