# A verified model of Meshezia's failover protocol, tunnel reconciler and address tables

Meshezia joins hosts into a mesh of AmneziaWG tunnels. A server watches both ends of every tunnel and decides,
through probes, whether a pair of peers routes directly or through the relay. This project models that protocol
from both sides, the agent's interface reconciler, and the server's address allocation and rate limiting, and
proves what each is for.

The files fall into five groups.

* **The server.** `Negotiator.dfy` is `packages/server/src/negotiate.ts` as a class: the map of pair health (records
  on the heap), the map of active negotiations, the table of armed timers with what their closures captured, the
  connection map of `relay.ts`, and the tables of `db.ts`. `Reaper.dfy` is `reaper.ts` on top of it. Everything
  pushed is kept in a ghost outbox and every call in a ghost history.
* **One pair.** `PairMachine.dfy` says on values what each event does to one unordered pair of peers. `Slice(p)`
  reads off what the server holds about the pair `p`; every handler is proved to move each slice as the machine
  does, and `Valid()`, which all entry points keep, says that each slice stands exactly where the pair's own
  events, projected from the history, put it. So whatever is proved of all runs of the machine holds of every pair
  of every server: `Sessions`, `Streaks`, `Backoffs`, `Lifetimes`, `RelayEvidence`, `ForcedPairs`, `Release`,
  `Openings` and `Handshakes` prove it. `ServerTheorems.dfy` reads it back as statements about the server's fields and
  outbox; `Readings.dfy`, `Guards.dfy` and `Answers.dfy` read it off the calls themselves, with the tables each call
  found written out.
* **The agents.** `AgentHandlers.dfy` is `packages/agent/src/negotiate.ts` with its shared probe sockets, and
  `Monitoring.dfy` is `monitor.ts`; `AgentMachine.dfy` and `Tracking.dfy` are their one-peer views on values, which
  `AgentHistory.dfy` tells from what has happened to the agent.
* **The whole.** `System.dfy` puts the pair's machine, two agents, FIFO channels and a lossy, repeating datagram
  network together; `DirectEvidence.dfy`, `Freshness.dfy`, `StaleEvidence.dfy`, `LateRelay.dfy`, `Agreement.dfy` and
  `Quiescence.dfy` hold the end-to-end results, all of them for every run from the start, with the exact condition
  where the source's promise does not always hold. `Mesh.dfy` keeps a server object and two agent objects in step
  with the system, with what the agents sent and put on the wire (`Transcript.dfy`), so that these results are read
  back as statements about their fields and logs.
* **The rest.** `Reconciler.dfy` and `Ports.dfy` (`reconciler.ts`), `Subnet.dfy` and `Registry.dfy` (`subnet.ts`,
  `api.ts`), `RateLimiter.dfy` (`index.ts`), with `PairKeys.dfy`, `Decimals.dfy` and `Common.dfy` below them.

## What is assumed

* Peer ids hold no colon. They are UUID text (section 4 of RFC 9562), and `PairKeys.KeyDeterminesPair` then makes a
  key stand for one unordered pair; the server's maps are keyed by that pair. `ColonsCollide` shows the need.
* Each handler is atomic. On the agent, `probe-direct-go` is three steps (receipt, each datagram, the end of its
  loop); other handlers are taken as one step although they wait inside.
* What is under way to an agent is lost when its socket closes or is replaced. What an agent has under way to the
  server may still arrive then, as the server goes on reading a replaced socket (packages/server/src/relay.ts:51-56),
  or be lost at any moment.
* Nonces and probe-socket handles are new when made. The clock does not go back where a theorem asks for it
  (`Streaks.Clocked`, `Lifetimes.Punctual`, `Limiter.clock`).
* Which of two link rows an unordered `LIMIT 1` returns is left open, call by call and pair by pair (`loFirst`).
* The answer of the TCP probe, whether a socket can be bound, kernel byte counts, random ports and whether an
  interface can be set up are inputs.

## Where the code and its documentation differ

The code is followed in each case.

* "Force mode persists across server restarts and blocks negotiation until cleared" (README.md:214): true exactly
  when both link rows exist at the time of the command (`ForcedPairs.ForcedStaysOutIffBothRows`).
* "Both sides report success/failure" of a relay probe (README.md:191): only the client's report is read.
* Each side is said to send the other's nonce in a direct probe (README.md:198): each sends its own
  (packages/agent/src/negotiate.ts:218-235).
* The backoff ladder (README.md:200) is right if the configured interval is at most 240 s or a probe has failed
  (`Backoffs.LadderAsDocumented`).
* "If both receive the expected nonce" (README.md:199): both ends did receive a nonce the other announced and they
  were told (`DirectEvidence.SwitchDirectIsFounded`), but perhaps in an earlier probe, since results name a peer and
  not a probe: some run of honest agents shows it whatever the configuration (`StaleEvidence.OldSuccessesDecide`).
  It cannot happen if, when the probe opens, no old go, ready or success is under way and no go loop still runs that
  has seen its nonce or can be shown it by a datagram already sent (`Freshness.FreshIfNothingOld`); and with no old
  ready or go under way it can, exactly if one of the rest fails (`StaleEvidence.FreshIffNothingLeftFromStart`).
* The report that decides a relay probe (README.md:191) names no probe either: a success of an earlier one decides a
  later one that has sent no check, exactly if its client has such a success first under way or an earlier check
  still to come (`LateRelay.CheckedIffNothingLeft`); some run of honest agents gets there
  (`LateRelay.LateSuccessDecides`).
* The ports of one host are drawn so as to be distinct (packages/agent/src/reconciler.ts:64-72), but a port that the
  server names is taken unseen (packages/agent/src/reconciler.ts:113-117), so two peers can end up with one
  (`Ports.NamedPortClashes`). They stay apart in a turn exactly if the named port is free (`Ports.TurnKeepsApart`),
  and after a pass, exactly if what is held and named does not clash and no drawn port is named later
  (`Ports.ApartIffNothingClashes`); whether that is certain can be told beforehand (`Ports.SurelyApartIff`).
* Both ends follow the same commands (packages/server/src/negotiate.ts:314-315, 459-460, 524-525), but a disconnect
  loses what is under way. The two modes part exactly if a socket that is cut held a net mode change, a restart finds
  them apart, or a force command reaches one end only that had to change (`Agreement.ConvergingIffKept`).
* The removal of a peer aborts its negotiations, but the removed end is told nothing; exactly that, with a probe
  begun at that end, and a new socket on which the agent is not clean, leave a probe behind
  (`Quiescence.SettlingIffKept`).
* The grace period is said to start when a peer joins (README.md:218): it starts with a side's first report about
  that pair, and starts again after a restart.

## Model

| member | source | states |
|---|---|---|
| PairKeys.LessTotal | packages/server/src/negotiate.ts:83-85 | JavaScript's string order is total: of two different ids exactly one is less |
| PairKeys.LessTransitive | packages/server/src/negotiate.ts:83-85 | and transitive |
| PairKeys.PairKeySymmetric | packages/server/src/negotiate.ts:83-85 | a pair has one key, whichever end is named first |
| PairKeys.ParseInvertsKey | packages/server/src/negotiate.ts:83-90 | parsing a key gives back the ordered pair if and only if neither id holds a colon |
| PairKeys.KeyDeterminesPair | packages/server/src/negotiate.ts:83-90 | two pairs of colon-free ids share a key exactly when they are the same unordered pair |
| PairKeys.ColonsCollide | packages/server/src/negotiate.ts:83-90 | with colons in ids, two different pairs can share a key |
| Negotiator.PairHealth.Record | packages/server/src/negotiate.ts:151-195 | join time, grace period and streak of the reporting side alone; tells exactly whether the report counted and both streaks have reached three |
| Negotiator.PairHealth.DoubleBackoff | packages/server/src/negotiate.ts:381 | the backoff doubles up to the maximum and no other field of the record changes |
| Negotiator.Server.SendMsg | packages/server/src/negotiate.ts:92-94 | one push is added to the outbox and to the log of its pair only, marked delivered exactly if its receiver is connected |
| Negotiator.Server.GetOrCreateHealth | packages/server/src/negotiate.ts:96-109 | the pair gets a fresh record if it had none; other pairs and existing records are untouched |
| Negotiator.Server.StoreReports | packages/server/src/negotiate.ts:145-164 | the batch is stored row by row, keeping each row's forced mode, or not at all if one row breaks a foreign key |
| Negotiator.Server.ProcessReports | packages/server/src/negotiate.ts:166-201 | the loop over many reports is, for every pair, the run of that pair's own reports |
| Negotiator.Server.HandleHealthReport | packages/server/src/negotiate.ts:145-202 | storing then counting: every pair makes exactly the steps the batch holds for it |
| Negotiator.Server.ShouldInitiateRelayProbe | packages/server/src/negotiate.ts:206-240 | true only if no negotiation is active and both ends are connected, and exactly when the pair's machine would open a probe; false leaves the machine's refusal, with the forced mode cached |
| Negotiator.Server.InitiateRelayProbe | packages/server/src/negotiate.ts:244-274 | the pair enters a relay probe with its timer armed, the longer streak serving, and one serve message; nothing else changes |
| Negotiator.Server.HandleProbeRelayReady | packages/server/src/negotiate.ts:276-303 | only the server node's message counts; the client gets the check with both keys, or the pair is aborted if a peer row is missing |
| Negotiator.Server.HandleProbeRelayResult | packages/server/src/negotiate.ts:305-324 | only the client node's message counts; the same verdict goes to both ends, the negotiation ends, both streaks are cleared |
| Negotiator.Server.CheckDirectProbes | packages/server/src/negotiate.ts:329-358 | the loop over relay pairs starts a probe for exactly the pairs whose own state and backoff call for one |
| Negotiator.Server.InitiateDirectProbe | packages/server/src/negotiate.ts:360-386 | the probe time is stamped, the ready timer captures the pair's current record, both ends are told to start |
| Negotiator.Server.HandleProbeDirectReady | packages/server/src/negotiate.ts:388-440 | the side's port and nonce are kept; once both are known each end is sent the other's, and the result timer replaces the ready timer |
| Negotiator.Server.HandleProbeDirectResult | packages/server/src/negotiate.ts:442-468 | with both results in: switch-direct if both succeeded, else stay, to both ends; backoff reset or doubled |
| Negotiator.Server.HandleProbeError | packages/server/src/negotiate.ts:472-485 | the negotiation is aborted; a direct probe also doubles the backoff |
| Negotiator.Server.FireTimer | packages/server/src/negotiate.ts:264-270 | a timer acts on the negotiation it was armed for, in the manner of its kind, and on no other pair |
| Negotiator.Server.HandleForceMode | packages/server/src/negotiate.ts:489-526 | abort to both ends, existing link rows and the record set, streaks cleared, backoff reset by auto, one command to each end |
| Negotiator.Server.FinishNegotiation | packages/server/src/negotiate.ts:530-535 | the pair's negotiation and its timer are gone, every other pair keeps both |
| Negotiator.Server.AbortNegotiation | packages/server/src/negotiate.ts:537-545 | connected ends are told the reason and the negotiation is gone; without one nothing happens |
| Negotiator.Server.AbortPeerNegotiations | packages/server/src/negotiate.ts:548-558 | deleting while iterating: no negotiation of the peer is left, the other end of each is told, all others go on |
| Negotiator.Server.CleanupPeerHealth | packages/server/src/negotiate.ts:561-568 | no record of the peer is left, all others are untouched |
| Negotiator.Server.HandleNegotiateMessage | packages/server/src/negotiate.ts:572-595 | any agent message keeps the invariant and every pair on its own run |
| Negotiator.Server.AbortStale | packages/server/src/negotiate.ts:601-613 | exactly the negotiations older than 30 s are aborted |
| Negotiator.Server.StaleSweep | packages/server/src/negotiate.ts:601-617 | the sweep and the look for direct probes keep the invariant and every pair on its own run |
| Negotiator.Server.OnOpen | packages/server/src/relay.ts:44-49 | a new socket takes the place of the old one; negotiations go on, invariant kept |
| Negotiator.Server.OnClose | packages/server/src/relay.ts:93-98 | the peer's entry goes, whichever socket closed, and with it all its negotiations; invariant kept |
| Negotiator.Server.OnTimer | packages/server/src/negotiate.ts:376-382 | a due timer fires and the invariant is kept |
| Negotiator.Server.OnForceMode | packages/server/src/api.ts:493-515 | the admin's command keeps the invariant and every pair on its own run |
| Negotiator.Server.OnDeletePeer | packages/server/src/api.ts:344-354 | the row goes with its link and port rows; the memory keeps, and the invariant too |
| Negotiator.Server.DeleteRow | packages/server/src/db.ts:65-88 | the cascade removes exactly the link and port rows that name the peer |
| Negotiator.Server.OnRestart | packages/server/src/negotiate.ts:61-62 | memory and sockets are gone, the tables stay, and every pair is where its run puts it |
| Negotiator.Server.Extends | packages/server/src/negotiate.ts:572-617 | a call that moves every slice by that pair's own events keeps the refinement over the longer history |
| PairMachine.SoundRun | packages/server/src/negotiate.ts:228-232 | over every run an active negotiation has both ends connected, its record, and one timer of the kind its phase needs |
| Sessions.StepMakesMove | packages/server/src/negotiate.ts:242-558 | every step adds to the log exactly one move of the session grammar, fitting the negotiation before and after |
| Sessions.GrammarRun | packages/server/src/negotiate.ts:242-558 | over every run the outbound log is a sequence of sessions (serve check* end, start start (go go)* end, force force), the last open exactly while such a negotiation is active, with at most one outcome each |
| Sessions.CommandsAgree | packages/server/src/negotiate.ts:314-315 | the mode-changing commands sent to the two ends always form the same sequence |
| Streaks.StreaksAreTrailingRuns | packages/server/src/negotiate.ts:166-201 | each streak is the number of trailing dead reports of its side, among post-grace direct-mode reports since the last reset |
| Streaks.TrailingDeadUnique | packages/server/src/negotiate.ts:181-188 | that number is the only one that fits the history |
| Streaks.NoRelayProbeInGrace | packages/server/src/negotiate.ts:172-199 | a relay probe starts only past the grace period on both sides, each with three dead reports in a row |
| Backoffs.BackoffIsLadder | packages/server/src/negotiate.ts:463-467 | over every run the backoff is the initial one doubled per failed direct probe since the last success or auto, capped |
| Backoffs.LadderAsDocumented | README.md:200 | that is min(init * 2^k, max) if and only if init is at most the maximum or a probe has failed |
| Backoffs.BackoffChangesAtTheEnd | packages/server/src/negotiate.ts:376-485 | a negotiation changes the backoff only in the step that ends it, so at most once |
| Backoffs.ProbeBudget | packages/server/src/negotiate.ts:343-363 | while the pair keeps its record, the i-th and j-th direct probes are at least j - i initial backoffs apart, whatever happens between |
| Lifetimes.BoundedLife | packages/server/src/negotiate.ts:601-613 | if timers and sweeps are at most `late` behind, no event finds a relay probe older than 15 s + late or any negotiation older than 40 s + late |
| Lifetimes.RepeatsRearm | packages/server/src/negotiate.ts:402-440 | without the sweep there is no bound: repeated ready messages keep re-arming the timer |
| RelayEvidence.SwitchRelayIsFounded | packages/server/src/negotiate.ts:195-324 | a switch-relay verdict answers the success of the chosen client, in a probe opened with both streaks at three, both ends connected, relay on and no forced mode, and left alone since |
| RelayEvidence.ActiveProbeIsFounded | packages/server/src/negotiate.ts:216-274 | every active relay probe was opened by one such report and has met no force command |
| RelayEvidence.HonestProbeIsAccepted | packages/server/src/negotiate.ts:276-303 | a check goes to the client and names the address, port and nonce its server announced; what the client posts is accepted by that server, whose key the table holds, if and only if the table holds a key for the client |
| ForcedPairs.ForcedStaysOutIffBothRows | packages/server/src/negotiate.ts:489-526 | after a force command no continuation without auto or deletion, restarts included, ever negotiates, if and only if both link rows existed |
| ForcedPairs.EscapeNegotiates | packages/server/src/negotiate.ts:206-227 | with a row missing, a restart, a first report and dead reports past the grace period do start a negotiation |
| Release.AutoReleases | packages/server/src/negotiate.ts:501-512 | after `auto`, whatever rows the pair has and whichever a query shows, some run without a further command, restart or removal opens a relay probe, and some opens a direct one |
| Release.ReleasedIffAuto | packages/server/src/negotiate.ts:489-526 | with both rows in the table, a pair can come to negotiate after a command, without a further one or a deletion, if and only if the command was `auto` |
| Openings.RowsTellHistory | packages/server/src/negotiate.ts:501-519 | over every run a stored row exists while its side has a mode stored since the last deletion, and holds that mode and the target of the last command since, none after `auto` |
| Openings.SocketsTellHistory | packages/server/src/negotiate.ts:228-232 | over every run a side counts as connected exactly if the last thing that happened to its socket is that it opened |
| Openings.StampsTellHistory | packages/server/src/negotiate.ts:360-364 | over every run the record exists exactly if a report or command came since it was dropped, and holds the time of its last direct probe |
| Openings.RecordRemembers | packages/server/src/negotiate.ts:208-226 | over every run the forced mode remembered is that of the last command, or one that a report due for a probe was shown by the table |
| Openings.DirectOpensIff | packages/server/src/negotiate.ts:329-364 | a step opens a direct probe if and only if it is the sweep and, of the events so far, both last stored modes are relay, no command stands on either row, both sockets are up, the record is there, the backoff is over, the relay is on and nothing is active |
| Openings.RelayOpensIff | packages/server/src/negotiate.ts:166-240 | a step opens a relay probe if and only if it is a counted report that makes three dead in a row on either side, nothing is active, no command is remembered or shown, both sockets are up and the relay is on |
| Handshakes.ProbeTellsHistory | packages/server/src/negotiate.ts:242-440 | over every run the active negotiation holds when it opened, the last ready message and result of either side since, and a timer of 15 s, 10 s from the opening, or 10 s from each ready message once both are ready |
| Handshakes.VerdictsIff | packages/server/src/negotiate.ts:305-468 | each of the three verdicts is sent if and only if: the client of the relay probe reported so; or the last results of both sides of a direct probe say so; or, for stay, its 10 s are over |
| Handshakes.ReadyIsAnswered | packages/server/src/negotiate.ts:388-428 | a ready message that finds both sides ready is answered with the last announcements crossed, or with the end if a peer is not in the table |
| Handshakes.RelayReadyIsAnswered | packages/server/src/negotiate.ts:276-303 | only the server node is answered: with the check to the client, or the end to both if a peer is not in the table |
| ServerTheorems.PairsAreIsolated | packages/server/src/negotiate.ts:145-617 | what two servers hold and sent for a pair is the same whenever that pair's own events are, whatever their other pairs did |
| ServerTheorems.TimersMatchNegotiations | packages/server/src/negotiate.ts:530-545 | armed timers and active negotiations correspond one to one; both ends are distinct and connected; a captured record is the current one |
| ServerTheorems.PushesAreSessions | packages/server/src/negotiate.ts:92-558 | the outbox of every server reads as sessions for every pair, and its mode commands agree at both ends |
| ServerTheorems.RecordsTellHistory | packages/server/src/negotiate.ts:166-201 | the fields of every health record are the trailing dead runs, first-report times and backoff ladder of the pair's history |
| ServerTheorems.NegotiationsAreYoung | packages/server/src/negotiate.ts:601-613 | with timers and sweeps at most `late` behind, no negotiation in the map is older than 40 s + late at its pair's last event, and no relay probe than 15 s + late |
| ServerTheorems.ProbesAreSpaced | packages/server/src/negotiate.ts:343-363 | over any stretch of a server's history without a restart or the reaping of an end, a pair's direct probes are the initial backoff apart, and its record holds the time of the last |
| ServerTheorems.PushedRelayVerdictsAreFounded | packages/server/src/negotiate.ts:234-324 | every switch-relay verdict in the outbox has its founded probe in the history, opened by a call for whose sender the tables of that call held a network with the relay enabled, both peers being online |
| ServerTheorems.ForcedPairStaysOut | packages/server/src/negotiate.ts:489-526 | a pair forced while both rows exist is in no negotiation however the server's history goes on, short of auto or deletion |
| Readings.LinksTellHistory | packages/server/src/negotiate.ts:122-164 | in every server a link row exists exactly while the calls have stored a mode for it, and holds the mode of the last stored report and the target of the last command since, none after `auto` |
| Readings.OutboxIsPushed | packages/server/src/negotiate.ts:92-94 | everything in the outbox about two peers was pushed by some call |
| Guards.PushedIsInOutbox | packages/server/src/negotiate.ts:92-94 | and what a call pushed is in the outbox |
| Guards.GosNameTheOther | packages/server/src/negotiate.ts:413-428 | every go tells its receiver the public address that the table held for the other peer when the call that sent it came, a ready message of one of the two |
| Guards.ChecksCarryKeys | packages/server/src/negotiate.ts:284-303 | every check carries the keys the table of its call held for the client and the server, and what the server's ready message announced |
| Guards.OutboxNamesTheOther | packages/server/src/negotiate.ts:276-428 | so every go and check in the outbox was sent by some call on the tables of that call |
| Guards.DirectStartsIff | packages/server/src/negotiate.ts:329-386 | a call makes the server start a direct probe if and only if it is the sweep, no negotiation of 30 s or less is active, both last stored reports say relay, no command stands, both are online, the backoff is over, and the network of the first peer has its relay flag set in the table |
| Guards.RelayServesIff | packages/server/src/negotiate.ts:166-240 | a call makes the server start a relay probe if and only if it is a health report of one of the two whose network has its relay flag set in the table, both are online, and a report of it tips the scales with no command remembered or shown |
| Guards.TippingReport | packages/server/src/negotiate.ts:166-199 | such a report is one of the call, on the other peer, direct and dead |
| Answers.RelayReadyCall | packages/server/src/negotiate.ts:276-303 | the server node's ready message makes the server push exactly the check with the two keys of the table, or the end to both if one peer is missing there |
| Answers.DirectReadyCall | packages/server/src/negotiate.ts:388-428 | the ready message that finds the other side ready makes the server push exactly the two gos, crossed, with the addresses of the table, or the end to both if one peer is missing there |
| Reaper.SelectExpired | packages/server/src/reaper.ts:22-25 | exactly the peers with a ttl above 0 last seen more than 1000 * ttl ms ago, each once |
| Reaper.GroupByNetwork | packages/server/src/reaper.ts:30-35 | each removed peer is listed once, under its own network |
| Reaper.PurgeMemory | packages/server/src/reaper.ts:38-41 | no negotiation or record of a removed peer is left; all other pairs are unchanged |
| Reaper.Notify | packages/server/src/reaper.ts:59-72 | the notices are exactly one per survivor and removed peer of the same network |
| Reaper.Reap | packages/server/src/reaper.ts:18-73 | the whole pass: exactly the peers with a ttl above 0 last seen more than 1000 * ttl ms ago go from memory and tables, all others stay as they were; one notice for each survivor and removed peer of one network and no other; if the transaction fails only memory is purged |
| Tracking.CountersAreTrailingRuns | packages/agent/src/monitor.ts:91-153 | over every history directMissed is the trailing run of counted ticks without untainted growth, and in direct mode rxAlive holds exactly while it is below three |
| Tracking.NoStaleFreeze | packages/agent/src/monitor.ts:118-127 | after a tick no freeze is older than 30 s |
| Monitoring.PeerState.Sample | packages/agent/src/monitor.ts:139-151 | one tick's bookkeeping of an unfrozen peer |
| Monitoring.Monitor.InitPeerState | packages/agent/src/monitor.ts:39-59 | a new peer starts direct and alive without a baseline; a known one keeps its counters; others untouched |
| Monitoring.Monitor.RemovePeerState | packages/agent/src/monitor.ts:61-65 | state and freeze of that peer alone are dropped |
| Monitoring.Monitor.Freeze | packages/agent/src/monitor.ts:67-70 | that peer alone is frozen, in both records |
| Monitoring.Monitor.Unfreeze | packages/agent/src/monitor.ts:72-75 | that peer alone is let go, in both records |
| Monitoring.Monitor.ClearAllFrozen | packages/agent/src/monitor.ts:77-80 | every peer is let go |
| Monitoring.Monitor.SetPeerMode | packages/agent/src/monitor.ts:91-98 | the counters of that peer alone start over; an unknown peer is left alone |
| Monitoring.Monitor.OnRelayForwarded | packages/agent/src/relay-proxy.ts:175-185 | the peer is tainted until the next drain |
| Monitoring.Monitor.DrainRelayForwarded | packages/agent/src/relay-proxy.ts:41-45 | the taint set is handed over and emptied |
| Monitoring.Monitor.OnTick | packages/agent/src/monitor.ts:118-153 | both loops together make exactly one tick for every peer, and leave no freeze older than 30 s |
| Monitoring.Monitor.CollectHealthReports | packages/agent/src/monitor.ts:156-180 | one report, of the current mode and flag, for each known unfrozen peer and for no other |
| Monitoring.EveryPeerTracksItsRun | packages/agent/src/monitor.ts:118-153 | in every monitor object, whatever was asked of it, each direct peer's counter and flag are those of its own history |
| Monitoring.MonitorTellsHistory | packages/agent/src/monitor.ts:39-127 | in every monitor object, who is known, in which mode, and frozen since when, told from its calls; a tick lets go exactly the freezes older than 30 s |
| AgentHistory.AgentTellsHistory | packages/agent/src/negotiate.ts:35-340 | over everything that can happen to an agent: the mode is that of the last message to switch or force it, the command remembered the last since the connection, the freeze that of the last probe message if nothing has let it go, the slot the last socket if nothing has ended since |
| AgentHistory.TcpSlotTellsHistory | packages/agent/src/negotiate.ts:86-115 | the one TCP slot is a peer's exactly while its server was the last started and no session with it has ended |
| AgentHandlers.AnswersReachTheirPair | packages/agent/src/negotiate.ts:100-208 | what an agent answers is for the server the event of its end of that pair, and nothing for any other pair |
| AgentHandlers.Negotiate.SwitchPeerMode | packages/agent/src/negotiate.ts:35-52 | the mode of that peer alone changes, and only if it is known |
| AgentHandlers.Negotiate.HandleProbeRelayServe | packages/agent/src/negotiate.ts:86-130 | freeze, take the one TCP slot and announce it, or report the error and unfreeze |
| AgentHandlers.Negotiate.HandleProbeRelayCheck | packages/agent/src/negotiate.ts:134-165 | freeze and report the outcome of the TCP probe |
| AgentHandlers.Negotiate.HandleProbeDirectStart | packages/agent/src/negotiate.ts:169-206 | freeze, open a fresh socket in the peer's slot and announce its port and nonce, or report the error |
| AgentHandlers.Negotiate.HandleProbeDirectGo | packages/agent/src/negotiate.ts:208-235 | the peer's socket now expects the peer's nonce and its own nonce goes out; without a socket nothing happens |
| AgentHandlers.Negotiate.OnData | packages/agent/src/negotiate.ts:221-226 | a datagram marks its socket resolved exactly if it carries the expected nonce |
| AgentHandlers.Negotiate.LoopEnds | packages/agent/src/negotiate.ts:237-257 | the loop closes whatever socket holds the peer's slot and reports |
| AgentHandlers.Negotiate.HandleProbeVerdict | packages/agent/src/negotiate.ts:262-277 | probe state of that peer is cleaned up and the verdict applied |
| AgentHandlers.Negotiate.HandleForceMode | packages/agent/src/negotiate.ts:292-308 | clean up, remember or forget the forced mode, switch unless auto |
| AgentHandlers.Negotiate.HandleMessage | packages/agent/src/negotiate.ts:56-82 | every message moves the named peer as the one-peer machine says and leaves all other peers alone; TCP slot, answers and datagrams exactly accounted for |
| AgentHandlers.Negotiate.CleanUpProbe | packages/agent/src/negotiate.ts:281-288 | an abort closes that peer's socket, frees the TCP slot only if it is that peer's, and unfreezes |
| AgentHandlers.Negotiate.Reset | packages/agent/src/negotiate.ts:328-340 | on disconnect every slot is emptied and closed, every freeze and forced mode dropped, modes kept |
| DirectEvidence.GosFrom | packages/server/src/negotiate.ts:413-428 | the port and nonce an end is told are those the other end announced, the address is the other end's |
| DirectEvidence.DirectVerdictFrom | packages/server/src/negotiate.ts:442-460 | a switch-direct verdict needs a success report from either end |
| DirectEvidence.SwitchDirectIsFounded | packages/agent/src/negotiate.ts:208-258 | in every run of server, two agents and network: once switch-direct was sent to either end, each end has received a datagram of the other's whose nonce the other announced and a go told this end to expect, sent to the port this end announced and a go told the other |
| DirectEvidence.LateResultsDecide | packages/server/src/negotiate.ts:442-460 | two late results decide a probe in which no ready or go was sent |
| Freshness.FreshIfNothingOld | packages/server/src/negotiate.ts:388-460 | if of earlier probes no go, ready or success is under way and no running loop can still see its nonce, every switch-direct verdict on the probe just opened stands on nonces made, announced, passed on and received since, at both ends |
| StaleEvidence.FreshIffNothingLeft | packages/server/src/negotiate.ts:442-460 | with no ready or go of earlier probes under way, all verdicts of the probe are so founded if and only if neither a success is under way (unless behind an error) nor such a loop runs, at either end |
| StaleEvidence.FreshIffNothingLeftFromStart | packages/server/src/negotiate.ts:360-460 | the same read off the moment at which the probe opens, in every run from the start |
| StaleEvidence.OldSuccessesDecide | packages/agent/src/negotiate.ts:237-257 | whatever the configuration, some run from the start lets two late successes decide a later probe with nothing received since it opened |
| LateRelay.CheckedIffNothingLeft | packages/server/src/negotiate.ts:305-324 | in every run from the start, every switch-relay verdict on the active relay probe comes after a check sent since, if and only if its client has neither an earlier success first under way nor an earlier check still to come |
| LateRelay.LateSuccessDecides | packages/server/src/negotiate.ts:305-324 | whatever the configuration, some run of honest agents opens a relay probe that the late success of the one before can decide without a check |
| Agreement.MessageApplies | packages/agent/src/negotiate.ts:35-52 | handling a message changes a known peer's mode exactly as its command says |
| Agreement.ActConverges | packages/server/src/negotiate.ts:489-558 | the ends go on converging if and only if the act cuts no net mode change, restarts with equal modes, and forces both ends, neither, or an absent end that is in that mode anyway |
| Agreement.ConvergingIffKept | packages/agent/src/negotiate.ts:262-308 | over every run the ends converge at every moment if and only if every act meets that condition |
| Agreement.QuiescentAgreement | packages/agent/src/negotiate.ts:262-308 | in every run from the start whose acts meet it, disconnects and restarts included, drained channels mean equal modes |
| Agreement.SteadyRunsKeep | packages/server/src/negotiate.ts:314-315 | from a moment with both ends connected, a run without disconnect or restart meets it |
| Agreement.BreakShows | packages/agent/src/negotiate.ts:292-308 | after an act that does not meet it, handling what is under way leaves the two agents in different modes |
| Agreement.LostCommandSplitsModes | packages/agent/src/relay-proxy.ts:187-194 | a concrete case: a disconnect that loses a force command leaves two drained agents apart |
| Quiescence.SessionEndClears | packages/agent/src/negotiate.ts:262-308 | a verdict, abort or force command leaves the peer unfrozen and its slot empty and closed; other sockets are untouched |
| Quiescence.ActSettles | packages/server/src/negotiate.ts:537-558 | the connected ends go on being clean once idle if and only if the act opens no socket to an unclean idle agent and removes no peer in a negotiation whose end will not be clean |
| Quiescence.SettlingIffKept | packages/agent/src/negotiate.ts:86-308 | over every run this is so at every moment if and only if every act meets that condition |
| Quiescence.NoProbeLeftBehind | packages/agent/src/negotiate.ts:86-308 | in every run from the start whose acts meet it, with no negotiation and drained channels no connected agent is frozen or holds a probe socket |
| Quiescence.BreakLeavesProbe | packages/server/src/negotiate.ts:548-558 | after an act that does not meet it, the agents can handle what is under way and leave a connected end frozen or with a socket |
| Quiescence.PurgeLeavesOneFrozen | packages/server/src/negotiate.ts:548-558 | a concrete case: the removal of a peer tells only the other one, so a frozen removed end stays frozen with nothing under way |
| Mesh.Mesh.Hears | packages/agent/src/negotiate.ts:56-82 | when an agent object handles a message, the objects stay in step with the system, which makes that delivery |
| Mesh.Mesh.Receives | packages/agent/src/negotiate.ts:221-226 | the same for a datagram at a probe socket, open or closed |
| Mesh.Mesh.Finishes | packages/agent/src/negotiate.ts:237-257 | the same for the end of a go loop |
| Mesh.Mesh.Loses | packages/agent/src/negotiate.ts:328-340 | the same for the agent's own disconnect |
| Mesh.Mesh.Ticks | packages/agent/src/monitor.ts:118-153 | a tick of the monitor is at most the lifting of one freeze for the system |
| Mesh.Mesh.HearsOther | packages/agent/src/negotiate.ts:56-82 | a message about another peer is nothing to the pair |
| Mesh.Mesh.TakesAnswer | packages/server/src/negotiate.ts:572-595 | the server object takes an agent's answer and moves as the system does on that delivery |
| Mesh.Mesh.TakesReport | packages/server/src/negotiate.ts:145-202 | health reports, and messages about other pairs, are for the system the server's steps on the pair's own events |
| Mesh.Mesh.Opens | packages/server/src/relay.ts:44-49 | the same for a socket that opens |
| Mesh.Mesh.Closes | packages/server/src/relay.ts:93-98 | the same for a socket that closes |
| Mesh.Mesh.Fires | packages/server/src/negotiate.ts:264-270 | the same for a due timer |
| Mesh.Mesh.Sweeps | packages/server/src/negotiate.ts:601-617 | the same for the sweep |
| Mesh.Mesh.Commands | packages/server/src/api.ts:493-515 | the same for a force command to any two peers |
| Mesh.Mesh.Deletes | packages/server/src/api.ts:344-354 | the same for the deletion of a peer |
| Mesh.Mesh.Reaps | packages/server/src/reaper.ts:18-73 | the same for a pass of the reaper |
| Mesh.Mesh.Restarts | packages/server/src/negotiate.ts:61-62 | the same for a restart |
| Mesh.Mesh.TablesChange | packages/server/src/api.ts:283-329 | registrations, updates and reported ports are nothing to the pair |
| Transcript.ChannelGains | packages/agent/src/negotiate.ts:86-257 | each act gives the channel to the server exactly what the agent says in it; otherwise the channel loses at most from its head |
| Transcript.AnnouncedIsSaid | packages/agent/src/negotiate.ts:169-206 | over every run the ports and nonces that count as announced are exactly those said in ready messages |
| Mesh.PushedDirectVerdictsAreFounded | packages/server/src/negotiate.ts:442-460 | whenever a server object's outbox holds a switch-direct verdict for the pair, each end has its evidence, with both gos in the outbox, both announcements in what the two agent objects sent, and the datagram on the sender's wire |
| Mesh.MonitorsAgree | packages/agent/src/monitor.ts:91-98 | the monitors of two agent objects hold the same mode for each other when nothing is under way and no act has set them apart |
| Mesh.MonitorsAreThawed | packages/agent/src/monitor.ts:72-80 | with no negotiation in the server's map and nothing under way, no connected agent object has the other frozen or in a probe slot, if every act met its condition |
| Reconciler.NameHasIndex | packages/agent/src/awg.ts:70-72 | the index read from an interface name is the one it was made from |
| Reconciler.FirstGap | packages/agent/src/reconciler.ts:52-53 | the search ends, on the least unused index, after at most as many steps as there are used ones |
| Reconciler.IndicesMean | packages/agent/src/reconciler.ts:49-51 | the collected indices are exactly those in use, no more than there are mapped peers |
| Reconciler.Mappings.GetIfName | packages/agent/src/reconciler.ts:46-59 | a known peer keeps its interface, a new one gets the least unused index; names stay distinct, indices below the peak number of mapped peers |
| Reconciler.Mappings.GetPort | packages/agent/src/reconciler.ts:61-79 | a known port is kept; a new one lies in the range and is no other peer's; 1000 failed tries leave everything as it was |
| Reconciler.Mappings.Configure | packages/agent/src/reconciler.ts:108-136 | one peer's turn: its name (the least unused index if new) and port (the server's, the held one, or a free one of the range), its interface, the exact peak, all others untouched |
| Reconciler.Mappings.RemoveGone | packages/agent/src/reconciler.ts:142-150 | exactly the mapped peers missing from the config lose mapping, port and interface |
| Reconciler.LoadAfterSave | packages/agent/src/reconciler.ts:20-44 | loading what was saved gives back both maps |
| Reconciler.Mappings.LoadMappings | packages/agent/src/reconciler.ts:20-33 | at boot memory takes over the file, once |
| Reconciler.Mappings.SaveMappings | packages/agent/src/reconciler.ts:36-47 | afterwards the file holds what is in memory |
| Reconciler.Mappings.Reconcile | packages/agent/src/reconciler.ts:101-155 | who is mapped afterwards, survivors under their old interface, new ones in config order with no unused index below any; the exact peak of mapped peers that bounds all indices; the ports as the turns settled them; the reported list; built and removed interfaces disjoint, file in step, nothing changed if all was assigned; a port failure removes and saves nothing |
| Reconciler.Mappings.ReconcileTwice | packages/agent/src/reconciler.ts:101-155 | a second pass with the same config succeeds and changes nothing |
| Ports.TurnKeepsApart | packages/agent/src/reconciler.ts:111-117 | one turn keeps the ports distinct if and only if no other peer holds the port the server names |
| Ports.ApartIffAlwaysFree | packages/agent/src/reconciler.ts:108-136 | the ports are distinct after every turn of a pass if and only if every named port was free at its turn |
| Ports.ApartIffNothingClashes | packages/agent/src/reconciler.ts:101-155 | the ports that a pass leaves are distinct if and only if the held and named ones are and no port drawn in it is named later |
| Ports.ReconcilePorts | packages/agent/src/reconciler.ts:101-155 | the same of a host object and its table of ports; and what it reports is the port held for each peer set up without an error |
| Ports.ReconcilePlainly | packages/agent/src/reconciler.ts:101-155 | a pass in plain words: mapped are the configured peers that were or have a key; those with a key listen where the server says, else where they did, else within the range; interfaces are those built and those not gone |
| Ports.NamesAreRead | packages/agent/src/reconciler.ts:46-59 | every interface is named mza and an index below the peak number of mapped peers |
| Ports.SurelyApartIff | packages/agent/src/reconciler.ts:61-79 | before a pass that can succeed: every way of drawing leaves distinct ports if and only if the held and named ones are distinct and no port of the range is named behind a peer that draws while it is free |
| Ports.NamedPortClashes | packages/agent/src/reconciler.ts:111-117 | on an empty host a peer draws the port that the server then names for another, and both keep it |
| Ports.ReportIsHeld | packages/agent/src/reconciler.ts:125-140 | with distinct ids the report lists exactly the peers set up without an error, each with its port |
| Subnet.OctetsRoundTrip | packages/server/src/subnet.ts:16-22 | four octets survive the way through the number |
| Subnet.IntRoundTrip | packages/server/src/subnet.ts:16-22 | a number survives modulo 2^32 the way through the octets |
| Subnet.AddressInjective | packages/server/src/subnet.ts:12-22 | two numbers print alike exactly when they agree modulo 2^32 |
| Subnet.ValidIffPrinted | packages/server/src/api.ts:21-29 | isValidIPv4 accepts exactly the printed addresses, whatever else Number accepts |
| Subnet.PlainNumberReads | packages/server/src/api.ts:21-29 | what is asked of the numeral reader is met by the reader of plain digits |
| Subnet.ValidCidrParses | packages/server/src/api.ts:31-39 | what isValidCIDR accepted, parseCidr reads as four octets and a prefix from 8 to 30 |
| Subnet.ValidCidrIff | packages/server/src/api.ts:31-39 | isValidCIDR accepts exactly a printed address, a slash, and what reads as a number from 8 to 30 |
| Subnet.AllocateIp | packages/server/src/subnet.ts:28-49 | the least free host, or failure exactly when every host address is in use |
| Subnet.HostsInsideIffAligned | packages/server/src/subnet.ts:28-36 | all candidates lie strictly inside the block if and only if the base is aligned, which is not checked |
| Subnet.HostsShareOctets | packages/server/src/subnet.ts:16-36 | in an aligned block every host shares with the base the octets that the prefix covers |
| Registry.HostsCount | packages/server/src/subnet.ts:31-36 | a block has 2^(32-prefix) - 2 different host addresses, even where it wraps |
| Registry.TakenIffFull | packages/server/src/subnet.ts:38-48 | all hosts are taken exactly when the network has 2^(32-prefix) - 2 peers |
| Registry.Tables.CreateNetwork | packages/server/src/api.ts:194-225 | a network is added exactly if its subnet is valid |
| Registry.Tables.Register | packages/server/src/api.ts:283-329 | the new peer gets the least free address; refusal exactly for an unknown network, one with 2^(32-prefix) - 2 peers, or a name another peer of that network has; addresses stay distinct |
| Registry.Tables.DeletePeer | packages/server/src/api.ts:344-354 | that peer alone goes, the invariant stays |
| Registry.Tables.DeleteNetwork | packages/server/src/api.ts:250-255 | the network and its peers go, the invariant stays |
| Registry.AddressesAreDistinct | packages/server/src/api.ts:307-325 | after any run no two peers of a network share an address, and every address is a valid one |
| RateLimiter.WindowBound | packages/server/src/index.ts:64-79 | within a window exactly as many pass as were counted, up to the maximum |
| RateLimiter.SlidingBound | packages/server/src/index.ts:64-79 | in any interval of the window's length at most 2 * max - 1 requests of one address pass |
| RateLimiter.BoundIsReached | packages/server/src/index.ts:64-79 | and for all limits some requests reach that number |
| RateLimiter.Limiter.CheckRateLimit | packages/server/src/index.ts:64-79 | each answer is that of a limiter which never cleans up |
| RateLimiter.Limiter.CleanUp | packages/server/src/index.ts:56-62 | exactly the expired entries go, and no later answer changes |
| RateLimiter.LimiterBound | packages/server/src/index.ts:51-79 | the bound holds of every limiter after any requests and cleanups |

## Left out

- StaleEvidence.FreshIffNothingLeft: with a ready message or a go of an earlier probe under way only the sufficient condition of `Freshness.FreshIfNothingOld` is given; the converse uses that what an agent has under way may be lost at any moment.
- StaleEvidence.FreshIffNothingLeftFromStart: the same.
- Quiescence.NoProbeLeftBehind: a TCP server that the agent's single slot no longer remembers keeps running; it is not tracked.
- Negotiator.Server.SendMsg: a push to a socket whose `sendText` throws counts as delivered; it does when its receiver has an entry in the connection map.
- Monitoring.Monitor.InitPeerState: the endpoint, key, interface and relay-port fields, which the counters never read.
- Monitoring.Monitor.CollectHealthReports: byte counts, handshake age, endpoint and interface fields of a report, which the protocol never reads.
- AgentHandlers.Negotiate.SwitchPeerMode: the endpoint command, and when it is skipped.
- AgentHandlers.Negotiate.HandleProbeDirectGo: the three timed sends are one packet, which the network may repeat.
- Registry.Tables.CreateNetwork: the checks of name, unique name and listen port.
- Backoffs.ProbeBudget: covers stretches in which the pair keeps its record; a restart or the reaper forgets when the last probe was.
- ServerTheorems.ForcedPairStaysOut: one direction only; both are in `ForcedPairs.ForcedStaysOutIffBothRows`, where the condition is stated on the pair's own state.
- Negotiator.Server.OnTables: registration, updates and relay switches are one step that may set these tables freely, because the protocol only reads them.
- Negotiation states are held by value in the map; the one alias, in the result timer, reads only the two ends.
- Telemetry columns of `peer_links`, last-seen updates, network names and tokens: not read by the protocol.
- The shell commands behind interfaces and routes are reduced to a set of interfaces and an outcome per peer.
- Interleavings at `await` inside one agent handler, for example two mode switches racing on the endpoint command.
- In the whole system: a peer becoming known to an agent or forgotten by it, and a restart of an agent's process.
- When an old socket's late close event removes the entry of a newer one, the model takes what is under way on the newer one as lost, though the agent still gets it; messages on an old and a new socket of one agent are not reordered.
- Relay frames, HTTP routing, authentication, JSON, static files, self-update and the web frontend.
- Environment values that are not positive numbers (rate limits, grace period, probe interval), and port ranges that are empty or start at 0.
- The kernel statistics cache, and interface listings: byte counts and outcomes are inputs.
