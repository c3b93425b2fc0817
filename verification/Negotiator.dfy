/** The negotiation server: packages/server/src/negotiate.ts over the connection map of relay.ts and the
    tables of db.ts. Records that the source updates in place are objects here; the maps, the timer table and
    the tables are fields. `Slice(p)` reads off what the server holds about the pair p, and every handler is
    proved to move each slice as PairMachine does. */
module Negotiator {
  import opened Common
  import opened PairKeys
  import opened PairMachine

  datatype PeerRow = PeerRow(network: string, info: Info, lastSeen: nat, ttlSeconds: nat)

  datatype HealthReport = HealthReport(peerId: PeerId, mode: Path, rxAlive: bool)

  /** A negotiation message about `other`, pushed to a socket if the peer has one. */
  datatype Push = Push(to: PeerId, other: PeerId, body: Body, delivered: bool)

  /** The reaper's notice that a peer was removed. */
  datatype Notice = Notice(to: PeerId, gone: PeerId, delivered: bool)

  /** Agent messages, as relay.ts passes them on. */
  datatype AgentMessage =
    | HealthReportMsg(reports: seq<HealthReport>)
    | RelayReadyMsg(other: PeerId, meshIpv4: string, tcpPort: nat, nonce: string)
    | RelayResultMsg(other: PeerId, success: bool)
    | DirectReadyMsg(other: PeerId, ready: Ready)
    | DirectResultMsg(other: PeerId, success: bool)
    | ProbeErrorMsg(other: PeerId)

  function SideOf(p: Pair, x: PeerId): Side { if x == p.lo then Lo else Hi }

  function End(p: Pair, x: Side): PeerId { if x.Lo? then p.lo else p.hi }

  /** What the outbox holds for one pair. */
  function LogOf(box: seq<Push>, p: Pair): seq<Sent> {
    if box == [] then []
    else
      var m := box[|box| - 1];
      LogOf(box[..|box| - 1], p)
      + (if PairOf(m.to, m.other) == p then [Sent(SideOf(p, m.to), m.body, m.delivered)] else [])
  }

  function Lookup<K, V>(m: map<K, V>, k: K): Option<V> {
    if k in m then Some(m[k]) else None
  }

  predicate RelayOnFor(peers: map<PeerId, PeerRow>, relayEnabled: map<string, bool>, x: PeerId) {
    x in peers && peers[x].network in relayEnabled && relayEnabled[peers[x].network]
  }

  /** What a handler called at `now` reads of the shared tables on behalf of pair p. */
  function EnvOf(peers: map<PeerId, PeerRow>, relayEnabled: map<string, bool>, now: nat, loFirst: set<Pair>,
                 p: Pair): Env {
    Env(now,
        if p.lo in peers then Some(peers[p.lo].info) else None,
        if p.hi in peers then Some(peers[p.hi].info) else None,
        RelayOnFor(peers, relayEnabled, p.lo), RelayOnFor(peers, relayEnabled, p.hi), p in loFirst)
  }

  // ----- the records updated in place -----

  class PairHealth {
    /** The pair whose record this is. */
    ghost const owner: Pair
    var streakAB: nat
    var streakBA: nat
    var lastDirectProbeAt: nat
    var directProbeBackoff: nat
    var forcedMode: Option<Forced>
    var joinedAtA: Option<nat>
    var joinedAtB: Option<nat>

    constructor (ghost owner: Pair, backoff: nat)
      ensures this.owner == owner && Value() == Health(0, 0, 0, backoff, None, None, None)
    {
      this.owner := owner;
      streakAB, streakBA, lastDirectProbeAt, directProbeBackoff := 0, 0, 0, backoff;
      forcedMode, joinedAtA, joinedAtB := None, None, None;
    }

    ghost function Value(): Health
      reads this
    {
      Health(streakAB, streakBA, lastDirectProbeAt, directProbeBackoff, forcedMode, joinedAtA, joinedAtB)
    }

    /** Join time, grace period and streak of the reporting side; `ripe` if the report counted and both
        streaks have reached the threshold. */
    method Record(c: Config, isFromA: bool, mode: Path, rxAlive: bool, now: nat) returns (ripe: bool)
      modifies this
      ensures var x := if isFromA then Lo else Hi;
              Value() == Recorded(c, old(Value()), x, mode, rxAlive, now)
              && ripe == Ripe(c, old(Value()), x, mode, rxAlive, now)
    {
      if isFromA && joinedAtA.None? {
        joinedAtA := Some(now);
      } else if !isFromA && joinedAtB.None? {
        joinedAtB := Some(now);
      }
      var joinedAt := if isFromA then joinedAtA else joinedAtB;
      if joinedAt.Some? && joinedAt.value != 0 && now - joinedAt.value < c.grace { return false; }
      if mode.RelayPath? { return false; }
      if rxAlive {
        if isFromA { streakAB := 0; } else { streakBA := 0; }
      } else {
        if isFromA { streakAB := streakAB + 1; } else { streakBA := streakBA + 1; }
      }
      return streakAB >= STREAK_THRESHOLD && streakBA >= STREAK_THRESHOLD;
    }

    method DoubleBackoff()
      modifies this`directProbeBackoff
      ensures Value() == Doubled(old(Value()))
    {
      directProbeBackoff := Min(directProbeBackoff * 2, BACKOFF_MAX);
    }
  }

  /** A negotiation is held by value in the map: its only alias, in the result timer, reads the two ends. */
  datatype NegotiationState = NegotiationState(direct: bool, peerA: PeerId, peerB: PeerId, startedAt: nat,
                                               serverNode: PeerId, clientNode: PeerId, timeoutId: Option<nat>,
                                               readyA: Option<Ready>, readyB: Option<Ready>,
                                               resultA: Option<bool>, resultB: Option<bool>)

  /** What a setTimeout closure has captured. */
  datatype Armed =
    | OnRelayTimeout(key: Pair, deadline: nat)
    | OnReadyTimeout(key: Pair, deadline: nat, health: PairHealth)
    | OnResultTimeout(key: Pair, deadline: nat)

  function TimerOf(a: Armed): Timer {
    match a
    case OnRelayTimeout(_, d) => Timer(RelayTimeout, d)
    case OnReadyTimeout(_, d, _) => Timer(ReadyTimeout, d)
    case OnResultTimeout(_, d) => Timer(ResultTimeout, d)
  }

  function NegValue(timers: map<nat, Armed>, n: NegotiationState): Neg {
    var t := if n.timeoutId.Some? && n.timeoutId.value in timers
             then Some(TimerOf(timers[n.timeoutId.value])) else None;
    if n.direct then DirectProbe(n.startedAt, t, n.readyA, n.readyB, n.resultA, n.resultB)
    else RelayProbe(n.startedAt, t, if n.serverNode == n.peerA then Lo else Hi)
  }

  // ----- inputs and their meaning for one pair -----

  datatype Call =
    | Opened(peer: PeerId)
    | Closed(peer: PeerId)
    | Message(from: PeerId, msg: AgentMessage)
    | Fired(key: Pair)
    | Swept
    | Forces(a: PeerId, b: PeerId, target: Option<Forced>)
    | Reaped(expired: seq<PeerId>, deleted: bool)
    | Deleted(peer: PeerId)
    | Restarted

  datatype Input = Input(now: nat, peers: map<PeerId, PeerRow>, relayEnabled: map<string, bool>, loFirst: set<Pair>,
                         call: Call)

  /** The batch is stored if every row satisfies the foreign keys, and not at all otherwise. */
  predicate Storable(peers: map<PeerId, PeerRow>, from: PeerId, reports: seq<HealthReport>) {
    forall i :: 0 <= i < |reports| ==> from in peers && reports[i].peerId in peers
  }

  function UpsertsFor(from: PeerId, reports: seq<HealthReport>, p: Pair): seq<Event> {
    if reports == [] then []
    else
      var r := reports[|reports| - 1];
      UpsertsFor(from, reports[..|reports| - 1], p)
      + (if PairOf(from, r.peerId) == p then [Upsert(SideOf(p, from), r.mode)] else [])
  }

  function ReportsFor(from: PeerId, reports: seq<HealthReport>, p: Pair): seq<Event> {
    if reports == [] then []
    else
      var r := reports[|reports| - 1];
      ReportsFor(from, reports[..|reports| - 1], p)
      + (if PairOf(from, r.peerId) == p then [Report(SideOf(p, from), r.mode, r.rxAlive)] else [])
  }

  function EventsOfMessage(peers: map<PeerId, PeerRow>, from: PeerId, msg: AgentMessage, p: Pair): seq<Event> {
    var x := SideOf(p, from);
    if msg.HealthReportMsg? then
      (if Storable(peers, from, msg.reports) then UpsertsFor(from, msg.reports, p) else [])
          + ReportsFor(from, msg.reports, p)
    else if PairOf(from, msg.other) != p then []
    else match msg
      case RelayReadyMsg(_, ip, port, nonce) => [RelayReady(x, ip, port, nonce)]
      case RelayResultMsg(_, ok) => [RelayResult(x, ok)]
      case DirectReadyMsg(_, r) => [DirectReady(x, r)]
      case DirectResultMsg(_, ok) => [DirectResult(x, ok)]
      case ProbeErrorMsg(_) => [ProbeError(x)]
      case _ => []
  }

  function PurgesFor(gone: seq<PeerId>, p: Pair): seq<Event> {
    if gone == [] then []
    else
      var x := gone[|gone| - 1];
      PurgesFor(gone[..|gone| - 1], p) + (if p.Has(x) then [Purge(SideOf(p, x))] else [])
  }

  function CascadesFor(gone: seq<PeerId>, p: Pair): seq<Event> {
    if gone == [] then []
    else CascadesFor(gone[..|gone| - 1], p) + (if p.Has(gone[|gone| - 1]) then [Cascade] else [])
  }

  /** What one call to the server is for the pair p. */
  function EventsOf(i: Input, p: Pair): seq<Event> {
    match i.call
    case Opened(x) => if p.Has(x) then [Connect(SideOf(p, x))] else []
    case Closed(x) => if p.Has(x) then [Close(SideOf(p, x))] else []
    case Message(from, msg) => EventsOfMessage(i.peers, from, msg, p)
    case Fired(key) => if key == p then [TimerFires] else []
    case Swept => [SweepStale, CheckDirect]
    case Forces(a, b, target) => if PairOf(a, b) == p then [Force(SideOf(p, a), target)] else []
    case Reaped(expired, deleted) => PurgesFor(expired, p) + (if deleted then CascadesFor(expired, p) else [])
    case Deleted(x) => if p.Has(x) then [Cascade] else []
    case Restarted => [Restart]
  }

  function Stamp(e: Env, evs: seq<Event>): seq<Timed> {
    seq(|evs|, i requires 0 <= i < |evs| => Timed(e, evs[i]))
  }

  function TimedOf(i: Input, p: Pair): seq<Timed> {
    Stamp(EnvOf(i.peers, i.relayEnabled, i.now, i.loFirst, p), EventsOf(i, p))
  }

  /** The run of the pair p inside a run of the server. */
  function Project(h: seq<Input>, p: Pair): seq<Timed> {
    if h == [] then [] else Project(h[..|h| - 1], p) + TimedOf(h[|h| - 1], p)
  }

  lemma ProjectExtend(c: Config, h: seq<Input>, i: Input, p: Pair)
    ensures Run(c, Project(h + [i], p)) == RunFrom(c, Run(c, Project(h, p)), TimedOf(i, p))
  {
    assert (h + [i])[..|h + [i]| - 1] == h;
    RunFromAppend(c, INIT, Project(h, p), TimedOf(i, p));
  }

  lemma StampAppend(e: Env, a: seq<Event>, b: seq<Event>)
    ensures Stamp(e, a + b) == Stamp(e, a) + Stamp(e, b)
  {
  }

  lemma RunStampAppend(c: Config, s: PairState, e: Env, a: seq<Event>, b: seq<Event>)
    ensures RunFrom(c, s, Stamp(e, a + b)) == RunFrom(c, RunFrom(c, s, Stamp(e, a)), Stamp(e, b))
  {
    StampAppend(e, a, b);
    RunFromAppend(c, s, Stamp(e, a), Stamp(e, b));
  }

  lemma RunStampOne(c: Config, s: PairState, e: Env, ev: Event)
    ensures RunFrom(c, s, Stamp(e, [ev])) == Step(c, s, Timed(e, ev))
    ensures RunFrom(c, s, Stamp(e, [])) == s
  {
    assert Stamp(e, [ev]) == [Timed(e, ev)];
    RunOne(c, s, Timed(e, ev));
  }

  /** What a probe message is for the pair it names. */
  function StepMessage(c: Config, e: Env, s: PairState, x: Side, msg: AgentMessage): PairState {
    match msg
    case RelayReadyMsg(_, ip, port, nonce) => StepRelayReady(e, s, x, ip, port, nonce)
    case RelayResultMsg(_, ok) => StepRelayResult(s, x, ok)
    case DirectReadyMsg(_, r) => StepDirectReady(e, s, x, r)
    case DirectResultMsg(_, ok) => StepDirectResult(c, s, x, ok)
    case ProbeErrorMsg(_) => StepProbeError(s)
    case HealthReportMsg(_) => s
  }

  lemma ProbeMessageMeans(c: Config, e: Env, s: PairState, peers: map<PeerId, PeerRow>, from: PeerId, msg: AgentMessage,
                          p: Pair)
    requires !msg.HealthReportMsg?
    ensures RunFrom(c, s, Stamp(e, EventsOfMessage(peers, from, msg, p)))
            == if PairOf(from, msg.other) == p then StepMessage(c, e, s, SideOf(p, from), msg) else s
  {
    hide RunFrom, Less, Stamp, StepRelayReady, StepRelayResult, StepDirectReady, StepDirectResult, StepProbeError;
    var x := SideOf(p, from);
    var ev := match msg
      case RelayReadyMsg(_, ip, port, nonce) => RelayReady(x, ip, port, nonce)
      case RelayResultMsg(_, ok) => RelayResult(x, ok)
      case DirectReadyMsg(_, r) => DirectReady(x, r)
      case DirectResultMsg(_, ok) => DirectResult(x, ok)
      case _ => ProbeError(x);
    RunStampOne(c, s, e, ev);
  }

  lemma SweepMeans(c: Config, e: Env, s: PairState)
    ensures RunFrom(c, s, Stamp(e, [SweepStale, CheckDirect])) == StepCheckDirect(e, StepSweep(e, s))
  {
    hide RunFrom, StepCheckDirect, StepSweep;
    assert [SweepStale, CheckDirect] == [SweepStale] + [CheckDirect];
    RunStampAppend(c, s, e, [SweepStale], [CheckDirect]);
    RunStampOne(c, s, e, SweepStale);
    RunStampOne(c, StepSweep(e, s), e, CheckDirect);
  }

  lemma SweptMeans(c: Config, i: Input, s: PairState, p: Pair)
    requires i.call.Swept?
    ensures var e := EnvOf(i.peers, i.relayEnabled, i.now, i.loFirst, p);
            RunFrom(c, s, TimedOf(i, p)) == StepCheckDirect(e, StepSweep(e, s))
  {
    hide RunFrom, StepCheckDirect, StepSweep, Stamp;
    SweepMeans(c, EnvOf(i.peers, i.relayEnabled, i.now, i.loFirst, p), s);
  }

  lemma OpenedMeans(c: Config, i: Input, s: PairState, p: Pair)
    requires i.call.Opened?
    ensures var x := SideOf(p, i.call.peer);
            RunFrom(c, s, TimedOf(i, p)) == if p.Has(i.call.peer) then s.SetConnected(x, true) else s
  {
    hide RunFrom, Stamp;
    RunStampOne(c, s, EnvOf(i.peers, i.relayEnabled, i.now, i.loFirst, p), Connect(SideOf(p, i.call.peer)));
  }

  lemma CloseMeans(c: Config, i: Input, s: PairState, p: Pair)
    requires i.call.Closed?
    ensures var x := SideOf(p, i.call.peer);
            RunFrom(c, s, TimedOf(i, p)) == if p.Has(i.call.peer)
                then AbortFor(s.SetConnected(x, false), x, WsReset) else s
  {
    hide RunFrom, AbortFor, Stamp;
    RunStampOne(c, s, EnvOf(i.peers, i.relayEnabled, i.now, i.loFirst, p), Close(SideOf(p, i.call.peer)));
  }

  lemma FiredMeans(c: Config, i: Input, s: PairState, p: Pair)
    requires i.call.Fired?
    ensures var e := EnvOf(i.peers, i.relayEnabled, i.now, i.loFirst, p);
            RunFrom(c, s, TimedOf(i, p)) == if p == i.call.key then StepTimer(e, s) else s
  {
    hide RunFrom, StepTimer, Stamp;
    RunStampOne(c, s, EnvOf(i.peers, i.relayEnabled, i.now, i.loFirst, p), TimerFires);
  }

  lemma ForcesMeans(c: Config, i: Input, s: PairState, p: Pair)
    requires i.call.Forces?
    ensures RunFrom(c, s, TimedOf(i, p))
            == if p == PairOf(i.call.a, i.call.b) then StepForce(c, s, SideOf(p, i.call.a), i.call.target) else s
  {
    hide RunFrom, StepForce, Stamp, Less;
    RunStampOne(c, s, EnvOf(i.peers, i.relayEnabled, i.now, i.loFirst, p), Force(SideOf(p, i.call.a), i.call.target));
  }

  lemma DeletedMeans(c: Config, i: Input, s: PairState, p: Pair)
    requires i.call.Deleted?
    ensures RunFrom(c, s, TimedOf(i, p)) == if p.Has(i.call.peer) then s.(rowLo := None, rowHi := None) else s
  {
    hide RunFrom, Stamp;
    RunStampOne(c, s, EnvOf(i.peers, i.relayEnabled, i.now, i.loFirst, p), Cascade);
  }

  lemma RestartedMeans(c: Config, i: Input, s: PairState, p: Pair)
    requires i.call.Restarted?
    ensures RunFrom(c, s, TimedOf(i, p)) == s.(connLo := false, connHi := false, health := None, neg := None)
  {
    hide RunFrom, Stamp;
    RunStampOne(c, s, EnvOf(i.peers, i.relayEnabled, i.now, i.loFirst, p), Restart);
  }

  lemma NoEvents(c: Config, s: PairState, e: Env, from: PeerId, reports: seq<HealthReport>, p: Pair)
    ensures RunFrom(c, s, Stamp(e, [])) == s
    ensures RunFrom(c, s, Stamp(e, UpsertsFor(from, reports[..0], p))) == s
    ensures RunFrom(c, s, Stamp(e, ReportsFor(from, reports[..0], p))) == s
  {
  }

  /** One more report of a batch stored. */
  lemma UpsertNext(c: Config, s: PairState, e: Env, from: PeerId, reports: seq<HealthReport>, i: nat, p: Pair)
    requires i < |reports|
    ensures var before := RunFrom(c, s, Stamp(e, UpsertsFor(from, reports[..i], p)));
            RunFrom(c, s, Stamp(e, UpsertsFor(from, reports[..i + 1], p)))
            == if PairOf(from, reports[i].peerId) == p
               then StepUpsert(before, SideOf(p, from), reports[i].mode) else before
  {
    hide RunFrom, Less;
    assert reports[..i + 1][..|reports[..i + 1]| - 1] == reports[..i];
    var before := UpsertsFor(from, reports[..i], p);
    var ev := Upsert(SideOf(p, from), reports[i].mode);
    RunStampAppend(c, s, e, before, [ev]);
    RunStampAppend(c, s, e, before, []);
    RunStampOne(c, RunFrom(c, s, Stamp(e, before)), e, ev);
  }

  /** One more report of a batch processed. */
  lemma ReportNext(c: Config, s: PairState, e: Env, from: PeerId, reports: seq<HealthReport>, i: nat, p: Pair)
    requires i < |reports|
    ensures var before := RunFrom(c, s, Stamp(e, ReportsFor(from, reports[..i], p)));
            var r := reports[i];
            RunFrom(c, s, Stamp(e, ReportsFor(from, reports[..i + 1], p)))
            == if PairOf(from, r.peerId) == p
               then StepReport(c, e, before, SideOf(p, from), r.mode, r.rxAlive) else before
  {
    hide RunFrom, Less;
    assert reports[..i + 1][..|reports[..i + 1]| - 1] == reports[..i];
    var before := ReportsFor(from, reports[..i], p);
    var ev := Report(SideOf(p, from), reports[i].mode, reports[i].rxAlive);
    RunStampAppend(c, s, e, before, [ev]);
    RunStampAppend(c, s, e, before, []);
    RunStampOne(c, RunFrom(c, s, Stamp(e, before)), e, ev);
  }

  lemma RecordedStaysOnSide(c: Config, h: Health, x: Side, mode: Path, rxAlive: bool, now: nat)
    ensures x.Lo? && h.streakBA == 0 ==>
              Recorded(c, h, x, mode, rxAlive, now).streakBA == 0 && !Ripe(c, h, x, mode, rxAlive, now)
  {
  }

  /** Every armed timer was issued before and is that of an active negotiation. */
  ghost predicate TimersFit(timers: map<nat, Armed>, next: nat, negs: map<Pair, NegotiationState>) {
    forall id :: id in timers ==> id < next && timers[id].key in negs && negs[timers[id].key].timeoutId == Some(id)
  }

  lemma TimersFitMore(timers: map<nat, Armed>, next: nat, negs: map<Pair, NegotiationState>, key: Pair,
                      n: NegotiationState, a: Armed)
    requires TimersFit(timers, next, negs) && key !in negs && n.timeoutId == Some(next) && a.key == key
    ensures next !in timers && TimersFit(timers[next := a], next + 1, negs[key := n])
  {
  }

  lemma TimersFitRearmed(timers: map<nat, Armed>, next: nat, negs: map<Pair, NegotiationState>, key: Pair,
                         n: NegotiationState, a: Armed)
    requires TimersFit(timers, next, negs) && key in negs && negs[key].timeoutId.Some? && n.timeoutId == Some(next)
    requires a.key == key
    ensures next !in timers && TimersFit((timers - {negs[key].timeoutId.value})[next := a], next + 1, negs[key := n])
  {
  }

  // ----- the server -----

  class Server {
    const config: Config
    var pairHealthMap: map<Pair, PairHealth>
    var activeNegotiations: map<Pair, NegotiationState>
    /** Timers armed and not yet fired or cleared, by timer id. */
    var timers: map<nat, Armed>
    var nextTimer: nat
    /** relay.ts: the socket of each connected peer. */
    var connections: map<PeerId, nat>
    /** The tables peers, networks (only the relay flag), peer_links and peer_ports. */
    var peers: map<PeerId, PeerRow>
    var relayEnabled: map<string, bool>
    var links: map<(PeerId, PeerId), Row>
    var ports: map<(PeerId, PeerId), nat>
    /** Everything pushed so far, and everything that was asked of the server so far. */
    ghost var outbox: seq<Push>
    ghost var notices: seq<Notice>
    ghost var history: seq<Input>

    constructor (config: Config)
      ensures Valid() && this.config == config && history == []
      ensures peers == map[] && links == map[] && connections == map[]
    {
      this.config := config;
      pairHealthMap, activeNegotiations, timers, nextTimer := map[], map[], map[], 0;
      connections, peers, relayEnabled, links, ports := map[], map[], map[], map[], map[];
      outbox, notices, history := [], [], [];
    }

    /** All the server holds about the pair p. */
    ghost function Slice(p: Pair): PairState
      reads this`connections, this`pairHealthMap, this`activeNegotiations, this`timers, this`links, this`outbox,
            pairHealthMap.Values
    {
      PairState(p.lo in connections, p.hi in connections,
                if p in pairHealthMap then Some(pairHealthMap[p].Value()) else None,
                if p in activeNegotiations then Some(NegValue(timers, activeNegotiations[p])) else None,
                Lookup(links, (p.lo, p.hi)), Lookup(links, (p.hi, p.lo)), LogOf(outbox, p))
    }

    /** The timer armed for negotiation n of pair p: it knows p, and a health record its closure captured is the
        pair's current one. */
    ghost predicate ArmedFor(p: Pair, n: NegotiationState)
      reads this`timers, this`pairHealthMap
    {
      && n.timeoutId.Some? && n.timeoutId.value in timers
      && var a := timers[n.timeoutId.value];
      && a.key == p
      && if !n.direct then a.OnRelayTimeout?
         else if n.readyA.Some? && n.readyB.Some? then a.OnResultTimeout?
         else a.OnReadyTimeout? && p in pairHealthMap && a.health == pairHealthMap[p]
    }

    ghost predicate NegSound(p: Pair, n: NegotiationState)
      reads this`timers, this`pairHealthMap
    {
      && p.Proper() && n.peerA == p.lo && n.peerB == p.hi && p in pairHealthMap
      && (!n.direct ==>
          (n.serverNode == p.lo && n.clientNode == p.hi) || (n.serverNode == p.hi && n.clientNode == p.lo))
      && (n.direct ==> n.resultA.None? || n.resultB.None?)
      && ArmedFor(p, n)
    }

    ghost predicate Records()
      reads this`pairHealthMap, pairHealthMap.Values
    {
      forall p :: p in pairHealthMap ==>
        && pairHealthMap[p].owner == p
        && (p.lo == p.hi ==> pairHealthMap[p].streakBA == 0)
    }

    ghost predicate Negs()
      reads this`timers, this`pairHealthMap, this`activeNegotiations
    {
      forall p :: p in activeNegotiations ==> NegSound(p, activeNegotiations[p])
    }

    ghost predicate Timers()
      reads this`timers, this`nextTimer, this`activeNegotiations
    {
      TimersFit(timers, nextTimer, activeNegotiations)
    }

    /** Timer discipline: every active negotiation has exactly one armed timer, its own, and every armed
        timer is that of an active negotiation. */
    ghost predicate Core()
      reads this`timers, this`nextTimer, this`pairHealthMap, this`activeNegotiations, pairHealthMap.Values
    {
      Records() && Negs() && Timers()
    }

    /** Liveness guard: both ends of an active negotiation are connected. */
    ghost predicate Live()
      reads this`activeNegotiations, this`connections
    {
      forall p :: p in activeNegotiations ==> p.lo in connections && p.hi in connections
    }

    /** Foreign keys: link and port rows name existing peers. */
    ghost predicate Keyed()
      reads this`peers, this`links, this`ports
    {
      && (forall k :: k in links ==> k.0 in peers && k.1 in peers)
      && (forall k :: k in ports ==> k.0 in peers && k.1 in peers)
    }

    ghost predicate Inv()
      reads this`timers, this`nextTimer, this`pairHealthMap, this`activeNegotiations, this`connections,
            pairHealthMap.Values
    {
      Core() && Live()
    }

    /** Pair isolation: every pair of distinct peers is where the one-pair machine stands after the events
        of that pair alone. */
    ghost predicate Refines()
      reads this, pairHealthMap.Values
    {
      forall p: Pair {:trigger Slice(p)} :: p.Proper() ==> Slice(p) == Run(config, Project(history, p))
    }

    ghost predicate Valid()
      reads this, pairHealthMap.Values
    {
      Inv() && Keyed() && Refines()
    }

    ghost function EnvAt(now: nat, loFirst: set<Pair>, p: Pair): Env
      reads this`peers, this`relayEnabled
    {
      EnvOf(peers, relayEnabled, now, loFirst, p)
    }

    /** Records only leave the maps or are new. */
    twostate predicate Fresh()
      reads this
    {
      fresh(pairHealthMap.Values - old(pairHealthMap.Values))
    }

    /** What the slice of one pair says about the fields. */
    lemma Reads(key: Pair)
      requires Core()
      ensures var s := Slice(key);
              && s.connLo == (key.lo in connections) && s.connHi == (key.hi in connections)
              && s.health == (if key in pairHealthMap then Some(pairHealthMap[key].Value()) else None)
              && s.neg == (if key in activeNegotiations then Some(NegValue(timers, activeNegotiations[key])) else None)
      ensures key in activeNegotiations ==> NegSound(key, activeNegotiations[key])
    {
      hide LogOf, Less;
    }

    /** Writing to the record of one pair changes the slice of that pair alone, in its health. */
    twostate lemma OnlyHealthChanged(key: Pair)
      requires old(Core()) && unchanged(this) && key in pairHealthMap
      requires forall p :: p in pairHealthMap && p != key ==> unchanged(pairHealthMap[p])
      requires key.lo == key.hi ==> pairHealthMap[key].streakBA == 0
      ensures Core()
      ensures forall q: Pair {:trigger Slice(q)} ::
                Slice(q) == if q == key then old(Slice(q)).(health := Some(pairHealthMap[key].Value()))
                    else old(Slice(q))
    {
      hide LogOf, Less;
    }

    /** What the map of negotiations says about one pair. */
    ghost function NegOf(key: Pair): Option<Neg>
      reads this`activeNegotiations, this`timers
    {
      if key in activeNegotiations then Some(NegValue(timers, activeNegotiations[key])) else None
    }

    /** Writing to the negotiation of one pair and to its timers changes the slice of that pair alone. */
    twostate lemma OnlyNegChanged(key: Pair)
      requires old(Core())
      requires unchanged(`pairHealthMap) && unchanged(`connections) && unchanged(`links) && unchanged(`outbox)
      requires unchanged(pairHealthMap.Values)
      requires forall p :: p != key ==> (p in activeNegotiations <==> p in old(activeNegotiations))
      requires forall p :: p != key && p in activeNegotiations ==> activeNegotiations[p] == old(activeNegotiations)[p]
      requires forall id :: id in old(timers) && old(timers)[id].key != key ==>
               id in timers && timers[id] == old(timers)[id]
      ensures forall q: Pair {:trigger Slice(q)} ::
                Slice(q) == if q == key then old(Slice(q)).(neg := NegOf(key)) else old(Slice(q))
    {
      hide LogOf, Less;
    }

    // ----- sending, timers, the end of a negotiation -----

    method SendMsg(to: PeerId, other: PeerId, body: Body)
      modifies this`outbox
      ensures outbox == old(outbox) + [Push(to, other, body, to in connections)]
      ensures forall q: Pair {:trigger Slice(q)} :: q.Proper() ==>
                Slice(q) == if q == PairOf(to, other) then Send(old(Slice(q)), SideOf(q, to), body) else old(Slice(q))
    {
      outbox := outbox + [Push(to, other, body, to in connections)];
      assert outbox[..|outbox| - 1] == old(outbox);
    }

    method SendToBoth(key: Pair, body: Body)
      requires key.Proper()
      modifies this`outbox
      ensures forall q: Pair {:trigger Slice(q)} :: q.Proper() ==>
                Slice(q) == if q == key then SendBoth(old(Slice(q)), body) else old(Slice(q))
    {
      hide LogOf, Less;
      PairOfEnds(key);
      SendMsg(key.lo, key.hi, body);
      SendMsg(key.hi, key.lo, body);
    }

    method SendToConnected(key: Pair, body: Body)
      requires key.Proper()
      modifies this`outbox
      ensures forall q: Pair {:trigger Slice(q)} :: q.Proper() ==>
                Slice(q) == if q == key then SendBothIfConnected(old(Slice(q)), body) else old(Slice(q))
    {
      hide LogOf, Less;
      PairOfEnds(key);
      if key.lo in connections { SendMsg(key.lo, key.hi, body); }
      if key.hi in connections { SendMsg(key.hi, key.lo, body); }
    }

    /** Take a negotiation out of the map and clear its timer. */
    method Deactivate(key: Pair)
      requires Core()
      modifies this`timers, this`activeNegotiations
      ensures Core() && activeNegotiations == old(activeNegotiations) - {key}
      ensures forall id :: id in old(timers) && old(timers)[id].key != key ==>
              id in timers && timers[id] == old(timers)[id]
    {
      hide LogOf, Less, Slice, NegValue, Pair.Proper, Records;
      if key !in activeNegotiations { return; }
      assert NegSound(key, activeNegotiations[key]);
      hide Negs;
      var id := activeNegotiations[key].timeoutId;
      if id.Some? { timers := timers - {id.value}; }
      activeNegotiations := activeNegotiations - {key};
      OthersStaySound(key);
      AllSound(key);
    }

    method FinishNegotiation(key: Pair)
      requires Core()
      modifies this`timers, this`activeNegotiations
      ensures Core() && activeNegotiations == old(activeNegotiations) - {key}
      ensures forall q: Pair {:trigger Slice(q)} ::
              q.Proper() ==> Slice(q) == if q == key then Finish(old(Slice(q))) else old(Slice(q))
    {
      hide LogOf, Less, Slice, Core, NegSound, NegValue;
      Deactivate(key);
      OnlyNegChanged(key);
    }

    method AbortNegotiation(key: Pair, reason: Reason)
      requires Core()
      modifies this`timers, this`activeNegotiations, this`outbox
      ensures Core() && activeNegotiations == old(activeNegotiations) - {key}
      ensures forall q: Pair {:trigger Slice(q)} :: q.Proper() ==>
                Slice(q) == if q == key then Abort(old(Slice(q)), reason) else old(Slice(q))
    {
      hide LogOf, Less;
      if key !in activeNegotiations { return; }
      SendToConnected(key, NegotiateAbort(reason));
      FinishNegotiation(key);
    }

    /** A negotiation fit to be put in the map, and the timer fit for it. */
    ghost predicate Startable(key: Pair, neg: NegotiationState, a: Armed)
      reads this`pairHealthMap, this`activeNegotiations, this`connections
    {
      && key.Proper() && key in pairHealthMap && key !in activeNegotiations
      && key.lo in connections && key.hi in connections && neg.peerA == key.lo && neg.peerB == key.hi && a.key == key
      && neg.timeoutId.None? && neg.readyA.None? && neg.readyB.None? && neg.resultA.None? && neg.resultB.None?
      && if neg.direct then a.OnReadyTimeout? && a.health == pairHealthMap[key]
         else a.OnRelayTimeout? && ((neg.serverNode == key.lo && neg.clientNode == key.hi)
                                    || (neg.serverNode == key.hi && neg.clientNode == key.lo))
    }

    /** The negotiations of other pairs do not mind a change to one pair's negotiation and timers. */
    twostate lemma OthersStaySound(key: Pair)
      requires old(Negs()) && unchanged(`pairHealthMap)
      requires forall p :: p != key && p in activeNegotiations ==>
               p in old(activeNegotiations) && activeNegotiations[p] == old(activeNegotiations)[p]
      requires forall id :: id in old(timers) && old(timers)[id].key != key ==>
               id in timers && timers[id] == old(timers)[id]
      ensures forall p :: p != key && p in activeNegotiations ==> NegSound(p, activeNegotiations[p])
    {
      hide Less, Pair.Proper;
      forall p | p != key && p in activeNegotiations ensures NegSound(p, activeNegotiations[p]) {
        assert old(NegSound(p, activeNegotiations[p]));
      }
    }

    /** Put a new negotiation in the map with its timer armed. */
    method Activate(key: Pair, neg: NegotiationState, a: Armed)
      requires Inv() && Startable(key, neg, a)
      modifies this`activeNegotiations, this`timers, this`nextTimer
      ensures Inv()
      ensures activeNegotiations == old(activeNegotiations)[key := neg.(timeoutId := Some(old(nextTimer)))]
      ensures timers == old(timers)[old(nextTimer) := a] && old(nextTimer) !in old(timers)
    {
      hide LogOf, Less, Slice, NegValue, Pair.Proper, Records, Negs, TimersFit;
      var id := nextTimer;
      TimersFitMore(timers, id, activeNegotiations, key, neg.(timeoutId := Some(id)), a);
      nextTimer := nextTimer + 1;
      timers := timers[id := a];
      activeNegotiations := activeNegotiations[key := neg.(timeoutId := Some(id))];
      OthersStaySound(key);
      AllSound(key);
    }

    lemma AllSound(key: Pair)
      requires forall p :: p != key && p in activeNegotiations ==> NegSound(p, activeNegotiations[p])
      requires key in activeNegotiations ==> NegSound(key, activeNegotiations[key])
      ensures Negs()
    {
    }

    method Start(key: Pair, neg: NegotiationState, a: Armed)
      requires Inv() && Startable(key, neg, a)
      modifies this`activeNegotiations, this`timers, this`nextTimer
      ensures Inv() && activeNegotiations.Keys == old(activeNegotiations.Keys) + {key}
      ensures forall q: Pair {:trigger Slice(q)} ::
                Slice(q) == if q != key then old(Slice(q))
                            else old(Slice(q)).(neg := Some(if neg.direct
                                                            then DirectProbe(neg.startedAt, Some(TimerOf(a)), None,
                                                                             None, None, None)
                                                            else RelayProbe(neg.startedAt, Some(TimerOf(a)),
                                                                            SideOf(key, neg.serverNode))))
    {
      hide LogOf, Less, Slice, Core, NegSound;
      Activate(key, neg, a);
      OnlyNegChanged(key);
    }

    // ----- health reports -----

    /** A new record in the map changes the slice of its pair alone, in its health. */
    twostate lemma OnlyHealthAdded(key: Pair)
      requires unchanged(`connections) && unchanged(`activeNegotiations) && unchanged(`timers)
      requires unchanged(`links) && unchanged(`outbox)
      requires key in pairHealthMap && key !in old(pairHealthMap)
      requires forall p :: p != key ==> (p in pairHealthMap <==> p in old(pairHealthMap))
      requires forall p :: p in old(pairHealthMap) ==>
               pairHealthMap[p] == old(pairHealthMap)[p] && unchanged(old(pairHealthMap)[p])
      ensures forall q: Pair {:trigger Slice(q)} ::
                Slice(q) == if q == key then old(Slice(q)).(health := Some(pairHealthMap[key].Value()))
                    else old(Slice(q))
    {
      hide LogOf, Less;
    }

    method GetOrCreateHealth(key: Pair) returns (h: PairHealth)
      requires Core()
      modifies this`pairHealthMap
      ensures Core() && Fresh() && key in pairHealthMap && h == pairHealthMap[key]
      ensures old(pairHealthMap.Keys) <= pairHealthMap.Keys
      ensures forall p :: p in old(pairHealthMap) ==> pairHealthMap[p] == old(pairHealthMap)[p]
      ensures forall q: Pair {:trigger Slice(q)} :: q.Proper() ==>
                Slice(q) == if q == key then old(Slice(q)).(health := Some(HealthOf(config, old(Slice(q)))))
                    else old(Slice(q))
    {
      hide LogOf, Less, Slice;
      Reads(key);
      if key in pairHealthMap { return pairHealthMap[key]; }
      h := new PairHealth(key, config.init);
      pairHealthMap := pairHealthMap[key := h];
      OnlyHealthAdded(key);
    }

    /** getForcedModeFromDb: one of the pair's rows, whichever the query returns first. */
    function ForcedModeFromDb(key: Pair, loFirst: set<Pair>): Option<Forced>
      reads this`links
    {
      var lo, hi := Lookup(links, (key.lo, key.hi)), Lookup(links, (key.hi, key.lo));
      if lo.Some? && (hi.None? || key in loFirst) then lo.value.forced
      else if hi.Some? then hi.value.forced
      else None
    }

    method ShouldInitiateRelayProbe(from: PeerId, key: Pair, health: PairHealth, now: nat, loFirst: set<Pair>)
        returns (go: bool)
      requires Inv() && key.Proper() && key.Has(from) && key in pairHealthMap && health == pairHealthMap[key]
      modifies health`forcedMode
      ensures Inv()
      ensures go ==> key !in activeNegotiations && key.lo in connections && key.hi in connections
      ensures go ==> forall q: Pair {:trigger Slice(q)} :: Slice(q) == old(Slice(q))
      ensures go ==>
              ConsiderRelayProbe(EnvAt(now, loFirst, key), Slice(key), SideOf(key, from))
              == OpenRelay(EnvAt(now, loFirst, key), Slice(key))
      ensures !go ==> forall q: Pair {:trigger Slice(q)} :: q.Proper() ==>
                Slice(q) == if q == key then ConsiderRelayProbe(EnvAt(now, loFirst, key), old(Slice(q)),
                                                                SideOf(key, from))
                            else old(Slice(q))
    {
      hide LogOf, Less;
      if key in activeNegotiations { return false; }
      var forced := if health.forcedMode.Some? then health.forcedMode else ForcedModeFromDb(key, loFirst);
      if forced.Some? {
        if health.forcedMode != forced { health.forcedMode := forced; }
        return false;
      }
      if key.lo !in connections || key.hi !in connections { return false; }
      return RelayOnFor(peers, relayEnabled, from);
    }

    method InitiateRelayProbe(key: Pair, health: PairHealth, now: nat, ghost e: Env)
      requires Inv() && key.Proper() && key in pairHealthMap && health == pairHealthMap[key]
      requires key !in activeNegotiations
      requires key.lo in connections && key.hi in connections && e.now == now
      modifies this`activeNegotiations, this`timers, this`nextTimer, this`outbox
      ensures Inv()
      ensures forall q: Pair {:trigger Slice(q)} :: q.Proper() ==>
                Slice(q) == if q == key then OpenRelay(e, old(Slice(q))) else old(Slice(q))
    {
      hide LogOf, Less, Slice, Core;
      PairOfEnds(key);
      Reads(key);
      var serverNode := if health.streakAB >= health.streakBA then key.lo else key.hi;
      var clientNode := if serverNode == key.lo then key.hi else key.lo;
      Start(key, NegotiationState(false, key.lo, key.hi, now, serverNode, clientNode, None, None, None, None, None),
            OnRelayTimeout(key, now + RELAY_PROBE_TIMEOUT));
      SendMsg(serverNode, clientNode, ProbeRelayServe);
    }

    method RecordReport(from: PeerId, key: Pair, r: HealthReport, now: nat) returns (ripe: bool)
      requires Inv() && key == PairOf(from, r.peerId)
      modifies this`pairHealthMap, pairHealthMap.Values
      ensures Inv() && Fresh() && key in pairHealthMap && (ripe ==> key.lo != key.hi)
      ensures ripe && key.Proper() ==>
                Ripe(config, HealthOf(config, old(Slice(key))), SideOf(key, from), r.mode, r.rxAlive, now)
      ensures !ripe && key.Proper() ==>
                !Ripe(config, HealthOf(config, old(Slice(key))), SideOf(key, from), r.mode, r.rxAlive, now)
      ensures forall q: Pair {:trigger Slice(q)} :: q.Proper() ==>
                Slice(q) == if q == key
                            then old(Slice(q)).(health := Some(Recorded(config, HealthOf(config, old(Slice(q))),
                                                                        SideOf(key, from),
                                                                        r.mode, r.rxAlive, now)))
                            else old(Slice(q))
    {
      hide LogOf, Less, Recorded, Ripe;
      var health := GetOrCreateHealth(key);
      ghost var before := health.Value();
      label counted:
      assert key.Proper() ==> Slice(key).health == Some(before);
      ripe := health.Record(config, from == key.lo, r.mode, r.rxAlive, now);
      RecordedStaysOnSide(config, before, SideOf(key, from), r.mode, r.rxAlive, now);
      OnlyHealthChanged@counted(key);
    }

    /** The streak part of handleHealthReport for one report. */
    method HandleOneReport(from: PeerId, r: HealthReport, now: nat, loFirst: set<Pair>)
      requires Inv()
      modifies this`pairHealthMap, this`activeNegotiations, this`timers, this`nextTimer, this`outbox,
               pairHealthMap.Values
      ensures Inv() && Fresh()
      ensures forall q: Pair {:trigger Slice(q)} :: q.Proper() ==>
                Slice(q) == if q == PairOf(from, r.peerId)
                            then StepReport(config, EnvAt(now, loFirst, q), old(Slice(q)), SideOf(q, from), r.mode,
                                            r.rxAlive)
                            else old(Slice(q))
    {
      hide LogOf, Less, Recorded, Ripe, ConsiderRelayProbe, OpenRelay, Slice, Core;
      var key := PairOf(from, r.peerId);
      PairOfSymmetric(from, r.peerId);
      var ripe := RecordReport(from, key, r, now);
      if ripe {
        var go := ShouldInitiateRelayProbe(from, key, pairHealthMap[key], now, loFirst);
        if go {
          InitiateRelayProbe(key, pairHealthMap[key], now, EnvAt(now, loFirst, key));
        }
      }
    }

    // ----- writing to a record found by its key -----

    method ResetStreaks(key: Pair)
      requires Core()
      modifies pairHealthMap.Values
      ensures Core()
      ensures forall q: Pair {:trigger Slice(q)} ::
              Slice(q) == if q == key then ClearStreaks(old(Slice(q))) else old(Slice(q))
    {
      hide LogOf, Less;
      if key in pairHealthMap {
        pairHealthMap[key].streakAB := 0;
        pairHealthMap[key].streakBA := 0;
        OnlyHealthChanged(key);
      }
    }

    method DoubleBackoffOf(key: Pair)
      requires Core()
      modifies pairHealthMap.Values
      ensures Core()
      ensures forall q: Pair {:trigger Slice(q)} ::
              Slice(q) == if q == key then DoubleBackoff(old(Slice(q))) else old(Slice(q))
    {
      hide LogOf, Less;
      if key in pairHealthMap {
        pairHealthMap[key].DoubleBackoff();
        OnlyHealthChanged(key);
      }
    }

    method ResetBackoffOf(key: Pair)
      requires Core()
      modifies pairHealthMap.Values
      ensures Core()
      ensures forall q: Pair {:trigger Slice(q)} ::
              Slice(q) == if q == key then ResetBackoff(config, old(Slice(q))) else old(Slice(q))
    {
      hide LogOf, Less;
      if key in pairHealthMap {
        pairHealthMap[key].directProbeBackoff := config.init;
        OnlyHealthChanged(key);
      }
    }

    method StampProbe(key: Pair, now: nat)
      requires Core() && key in pairHealthMap
      modifies pairHealthMap.Values
      ensures Core()
      ensures forall q: Pair {:trigger Slice(q)} ::
                Slice(q) == if q != key then old(Slice(q))
                            else old(Slice(q)).(health := Some(old(pairHealthMap[key].Value())
                                                               .(lastDirectProbeAt := now)))
    {
      hide LogOf, Less;
      pairHealthMap[key].lastDirectProbeAt := now;
      OnlyHealthChanged(key);
    }

    // ----- relay probe -----

    method HandleProbeRelayReady(from: PeerId, other: PeerId, meshIpv4: string, tcpPort: nat, nonce: string,
                                 ghost now: nat, ghost loFirst: set<Pair>)
      requires Inv()
      modifies this`activeNegotiations, this`timers, this`outbox
      ensures Inv()
      ensures forall q: Pair {:trigger Slice(q)} :: q.Proper() ==>
                Slice(q) == if q == PairOf(from, other)
                            then StepRelayReady(EnvAt(now, loFirst, q), old(Slice(q)), SideOf(q, from), meshIpv4,
                                                tcpPort, nonce)
                            else old(Slice(q))
    {
      hide LogOf, Less, Slice, Core;
      var key := PairOf(from, other);
      Reads(key);
      if key !in activeNegotiations { return; }
      var neg := activeNegotiations[key];
      if neg.direct || from != neg.serverNode { return; }
      PairOfEnds(key);
      if neg.clientNode !in peers || neg.serverNode !in peers {
        AbortNegotiation(key, TimedOut);
        return;
      }
      SendMsg(neg.clientNode, neg.serverNode,
              ProbeRelayCheck(meshIpv4, tcpPort, nonce, peers[neg.clientNode].info.pubkey,
                              peers[neg.serverNode].info.pubkey));
    }

    method HandleProbeRelayResult(from: PeerId, other: PeerId, success: bool)
      requires Inv()
      modifies this`activeNegotiations, this`timers, this`outbox, pairHealthMap.Values
      ensures Inv()
      ensures forall q: Pair {:trigger Slice(q)} :: q.Proper() ==>
                Slice(q) == if q == PairOf(from, other) then StepRelayResult(old(Slice(q)), SideOf(q, from), success)
                            else old(Slice(q))
    {
      hide LogOf, Less, Slice, Core;
      var key := PairOf(from, other);
      Reads(key);
      if key !in activeNegotiations { return; }
      var neg := activeNegotiations[key];
      PairOfEnds(key);
      if neg.direct || from != neg.clientNode { return; }
      SendToBoth(key, ProbeVerdict(if success then SwitchRelay else Stay));
      FinishNegotiation(key);
      ResetStreaks(key);
    }

    // ----- direct probe -----

    method InitiateDirectProbe(key: Pair, now: nat, ghost e: Env)
      requires Inv() && key.Proper() && key in pairHealthMap && key !in activeNegotiations
      requires key.lo in connections && key.hi in connections && e.now == now
      modifies this`activeNegotiations, this`timers, this`nextTimer, this`outbox, pairHealthMap.Values
      ensures Inv() && activeNegotiations.Keys == old(activeNegotiations.Keys) + {key}
      ensures forall q: Pair {:trigger Slice(q)} :: q.Proper() ==>
                Slice(q) == if q == key then OpenDirect(e, old(Slice(q))) else old(Slice(q))
    {
      hide LogOf, Less, Slice, Core;
      Reads(key);
      StampProbe(key, now);
      Start(key, NegotiationState(true, key.lo, key.hi, now, key.lo, key.hi, None, None, None, None, None),
            OnReadyTimeout(key, now + DIRECT_READY_TIMEOUT, pairHealthMap[key]));
      SendToBoth(key, ProbeDirectStart);
    }

    /** Fields of an active negotiation written in place; the timer armed for it must still fit. */
    method Update(key: Pair, n: NegotiationState)
      requires Core() && key in activeNegotiations && NegSound(key, n)
      requires n.timeoutId == activeNegotiations[key].timeoutId
      modifies this`activeNegotiations
      ensures Core() && activeNegotiations.Keys == old(activeNegotiations.Keys)
      ensures forall q: Pair {:trigger Slice(q)} ::
                Slice(q) == if q == key then old(Slice(q)).(neg := Some(NegValue(timers, n))) else old(Slice(q))
    {
      hide LogOf, Less, Slice, NegValue, Pair.Proper, Records;
      activeNegotiations := activeNegotiations[key := n];
      OthersStaySound(key);
      AllSound(key);
      OnlyNegChanged(key);
    }

    /** clearTimeout and setTimeout on an active negotiation. */
    method Rearm(key: Pair, n: NegotiationState, a: Armed)
      requires Core() && key in activeNegotiations && n.timeoutId == activeNegotiations[key].timeoutId
      requires key.Proper() && n.peerA == key.lo && n.peerB == key.hi && n.direct && n.readyA.Some? && n.readyB.Some?
      requires (n.resultA.None? || n.resultB.None?) && a.OnResultTimeout? && a.key == key
      modifies this`activeNegotiations, this`timers, this`nextTimer
      ensures Core() && activeNegotiations == old(activeNegotiations)[key := n.(timeoutId := Some(old(nextTimer)))]
      ensures old(nextTimer) !in old(timers) && n.timeoutId.Some?
      ensures timers == (old(timers) - {n.timeoutId.value})[old(nextTimer) := a]
    {
      hide LogOf, Less, Slice, NegValue, Records, TimersFit;
      assert NegSound(key, activeNegotiations[key]);
      hide Negs;
      var id := nextTimer;
      TimersFitRearmed(timers, id, activeNegotiations, key, n.(timeoutId := Some(id)), a);
      nextTimer := nextTimer + 1;
      timers := (timers - {n.timeoutId.value})[id := a];
      activeNegotiations := activeNegotiations[key := n.(timeoutId := Some(id))];
      OthersStaySound(key);
      AllSound(key);
    }

    method RearmResult(key: Pair, n: NegotiationState, now: nat)
      requires Core() && key in activeNegotiations && n.timeoutId == activeNegotiations[key].timeoutId
      requires key.Proper() && n.peerA == key.lo && n.peerB == key.hi && n.direct && n.readyA.Some? && n.readyB.Some?
      requires n.resultA.None? || n.resultB.None?
      modifies this`activeNegotiations, this`timers, this`nextTimer
      ensures Core() && activeNegotiations.Keys == old(activeNegotiations.Keys)
      ensures forall q: Pair {:trigger Slice(q)} ::
                Slice(q) == if q != key then old(Slice(q))
                            else var t := Timer(ResultTimeout, now + DIRECT_RESULT_TIMEOUT);
                                 old(Slice(q)).(neg := Some(DirectProbe(n.startedAt, Some(t), n.readyA, n.readyB,
                                                                        n.resultA, n.resultB)))
    {
      hide LogOf, Less, Slice, Core, NegSound;
      TimerOfOthers(key);
      Rearm(key, n, OnResultTimeout(key, now + DIRECT_RESULT_TIMEOUT));
      OnlyNegChanged(key);
    }

    /** The timer of one pair's negotiation is keyed by that pair. */
    lemma TimerOfOthers(key: Pair)
      requires Core() && key in activeNegotiations
      ensures forall id :: id in timers && timers[id].key != key ==> Some(id) != activeNegotiations[key].timeoutId
    {
      assert NegSound(key, activeNegotiations[key]);
    }

    method HandleProbeDirectReady(from: PeerId, other: PeerId, ready: Ready, now: nat, ghost loFirst: set<Pair>)
      requires Inv()
      modifies this`activeNegotiations, this`timers, this`nextTimer, this`outbox
      ensures Inv()
      ensures forall q: Pair {:trigger Slice(q)} :: q.Proper() ==>
                Slice(q) == if q == PairOf(from, other)
                            then StepDirectReady(EnvAt(now, loFirst, q), old(Slice(q)), SideOf(q, from), ready)
                            else old(Slice(q))
    {
      hide LogOf, Less, Slice, Core;
      var key := PairOf(from, other);
      Reads(key);
      if key !in activeNegotiations { return; }
      var neg := activeNegotiations[key];
      if !neg.direct { return; }
      PairOfEnds(key);
      var n := if from == key.lo then neg.(readyA := Some(ready)) else neg.(readyB := Some(ready));
      if n.readyA.None? || n.readyB.None? {
        Update(key, n);
        return;
      }
      if neg.peerA !in peers || neg.peerB !in peers {
        AbortNegotiation(key, TimedOut);
        return;
      }
      SendMsg(neg.peerA, neg.peerB, ProbeDirectGo(peers[neg.peerB].info.publicIp, n.readyB.value.udpPort,
                                                  n.readyB.value.nonce));
      SendMsg(neg.peerB, neg.peerA, ProbeDirectGo(peers[neg.peerA].info.publicIp, n.readyA.value.udpPort,
                                                  n.readyA.value.nonce));
      RearmResult(key, n, now);
    }

    method HandleProbeDirectResult(from: PeerId, other: PeerId, success: bool)
      requires Inv()
      modifies this`activeNegotiations, this`timers, this`outbox, pairHealthMap.Values
      ensures Inv()
      ensures forall q: Pair {:trigger Slice(q)} :: q.Proper() ==>
                Slice(q) == if q == PairOf(from, other)
                    then StepDirectResult(config, old(Slice(q)), SideOf(q, from), success)
                            else old(Slice(q))
    {
      hide LogOf, Less, Slice, Core;
      var key := PairOf(from, other);
      Reads(key);
      if key !in activeNegotiations { return; }
      var neg := activeNegotiations[key];
      if !neg.direct { return; }
      PairOfEnds(key);
      var n := if from == key.lo then neg.(resultA := Some(success)) else neg.(resultB := Some(success));
      if n.resultA.None? || n.resultB.None? {
        Update(key, n);
        return;
      }
      var bothSuccess := n.resultA.value && n.resultB.value;
      SendToBoth(key, ProbeVerdict(if bothSuccess then SwitchDirect else Stay));
      FinishNegotiation(key);
      if bothSuccess { ResetBackoffOf(key); } else { DoubleBackoffOf(key); }
    }

    method HandleProbeError(from: PeerId, other: PeerId)
      requires Inv()
      modifies this`activeNegotiations, this`timers, this`outbox, pairHealthMap.Values
      ensures Inv()
      ensures forall q: Pair {:trigger Slice(q)} :: q.Proper() ==>
                Slice(q) == if q == PairOf(from, other) then StepProbeError(old(Slice(q))) else old(Slice(q))
    {
      hide LogOf, Less, Slice, Core;
      var key := PairOf(from, other);
      Reads(key);
      if key !in activeNegotiations { return; }
      if activeNegotiations[key].direct { DoubleBackoffOf(key); }
      AbortNegotiation(key, TimedOut);
    }

    /** The ready-timeout closure writes to the record it captured, which must be the pair's current one. */
    method DoubleCaptured(ghost key: Pair, health: PairHealth)
      requires Core() && key in pairHealthMap && health == pairHealthMap[key]
      modifies health
      ensures Core()
      ensures forall q: Pair {:trigger Slice(q)} ::
              Slice(q) == if q == key then DoubleBackoff(old(Slice(q))) else old(Slice(q))
    {
      hide LogOf, Less;
      health.DoubleBackoff();
      OnlyHealthChanged(key);
    }

    lemma ReadsTimer(id: nat)
      requires Core() && id in timers
      ensures timers[id].key in activeNegotiations && activeNegotiations[timers[id].key].timeoutId == Some(id)
    {
    }

    /** A timer fires: its closure runs. Every closure ends the negotiation, and with it the timer. */
    method FireTimer(id: nat, now: nat, ghost e: Env)
      requires Inv() && id in timers && TimerOf(timers[id]).deadline <= now && e.now == now
      modifies this`activeNegotiations, this`timers, this`outbox, pairHealthMap.Values
      ensures Inv()
      ensures forall q: Pair {:trigger Slice(q)} :: q.Proper() ==>
                Slice(q) == if q == old(timers)[id].key then StepTimer(e, old(Slice(q))) else old(Slice(q))
    {
      hide LogOf, Less, Slice, Core;
      var a := timers[id];
      var key := a.key;
      ReadsTimer(id);
      Reads(key);
      match a
      case OnRelayTimeout(_, _) =>
        AbortNegotiation(key, TimedOut);
      case OnReadyTimeout(_, _, health) =>
        SendToConnected(key, ProbeVerdict(Stay));
        FinishNegotiation(key);
        DoubleCaptured(key, health);
      case OnResultTimeout(_, _) =>
        SendToBoth(key, ProbeVerdict(Stay));
        FinishNegotiation(key);
        DoubleBackoffOf(key);
    }

    // ----- admin, disconnects, reaper -----

    method HandleForceMode(a: PeerId, b: PeerId, target: Option<Forced>)
      requires Inv()
      modifies this`pairHealthMap, this`activeNegotiations, this`timers, this`links, this`outbox, pairHealthMap.Values
      ensures Inv() && Fresh() && links.Keys == old(links.Keys)
      ensures forall q: Pair {:trigger Slice(q)} :: q.Proper() ==>
                Slice(q) == if q == PairOf(a, b)
                    then StepForce(config, old(Slice(q)), SideOf(q, a), target) else old(Slice(q))
    {
      hide LogOf, Less, Slice, Core, NegSound, ForcedHealth, ForcedRow, HealthOf, PairOf, Send, SendBoth;
      var key := PairOf(a, b);
      PairOfSymmetric(a, b);
      AbortForCommand(key);
      ForceRecord(key, target);
      SetForcedRows(key, target);
      TellBoth(a, b, ForceMode(target));
    }

    /** One message to each of two peers about the other. */
    method TellBoth(a: PeerId, b: PeerId, body: Body)
      modifies this`outbox
      ensures forall q: Pair {:trigger Slice(q)} :: q.Proper() ==>
                Slice(q) == if q == PairOf(a, b)
                    then Send(Send(old(Slice(q)), SideOf(q, a), body), SideOf(q, a).Other(), body)
                            else old(Slice(q))
    {
      hide LogOf, Less, Slice;
      PairOfSymmetric(a, b);
      SendMsg(a, b, body);
      SendMsg(b, a, body);
    }

    method AbortForCommand(key: Pair)
      requires Core()
      modifies this`activeNegotiations, this`timers, this`outbox
      ensures Core() && activeNegotiations == old(activeNegotiations) - {key}
      ensures forall q: Pair {:trigger Slice(q)} :: q.Proper() ==>
                Slice(q) == if q == key && old(Slice(q)).neg.Some?
                    then Finish(SendBoth(old(Slice(q)), NegotiateAbort(AdminForce)))
                            else old(Slice(q))
    {
      hide LogOf, Less, Slice, Core;
      Reads(key);
      if key in activeNegotiations {
        SendToBoth(key, NegotiateAbort(AdminForce));
        FinishNegotiation(key);
      }
    }

    method ForceRecord(key: Pair, target: Option<Forced>)
      requires Core()
      modifies this`pairHealthMap, pairHealthMap.Values
      ensures Core() && Fresh()
      ensures forall q: Pair {:trigger Slice(q)} :: q.Proper() ==>
                Slice(q) == if q == key
                            then old(Slice(q)).(health := Some(ForcedHealth(config, HealthOf(config, old(Slice(q))),
                                                                            target)))
                            else old(Slice(q))
    {
      hide LogOf, Less;
      var health := GetOrCreateHealth(key);
      label found:
      assert key.Proper() ==> Slice(key).health == Some(health.Value());
      health.forcedMode := target;
      health.streakAB := 0;
      health.streakBA := 0;
      if target.None? { health.directProbeBackoff := config.init; }
      OnlyHealthChanged@found(key);
    }

    /** UPDATE peer_links SET forced_mode on the rows of the pair that exist. */
    method SetForcedRows(key: Pair, target: Option<Forced>)
      requires key.Proper() || key.lo == key.hi
      modifies this`links
      ensures links.Keys == old(links.Keys)
      ensures forall q: Pair {:trigger Slice(q)} :: q.Proper() ==>
                Slice(q) == if q == key
                            then old(Slice(q)).(rowLo := ForcedRow(old(Slice(q)).rowLo, target),
                                                rowHi := ForcedRow(old(Slice(q)).rowHi, target))
                            else old(Slice(q))
    {
      hide LogOf, Less;
      NotReversed(key);
      assert forall q: Pair {:trigger Slice(q)} :: q.lo == key.hi && q.hi == key.lo ==> q == Pair(key.hi, key.lo);
      if (key.lo, key.hi) in links {
        links := links[(key.lo, key.hi) := links[(key.lo, key.hi)].(forced := target)];
      }
      if (key.hi, key.lo) in links && key.lo != key.hi {
        links := links[(key.hi, key.lo) := links[(key.hi, key.lo)].(forced := target)];
      }
    }

    /** abortPeerNegotiations: end every negotiation the peer takes part in, telling the other end. */
    method AbortPeerNegotiations(peer: PeerId, reason: Reason)
      requires Core()
      modifies this`activeNegotiations, this`timers, this`outbox
      ensures Core() && activeNegotiations.Keys <= old(activeNegotiations.Keys)
      ensures forall p :: p in activeNegotiations ==> !p.Has(peer)
      ensures forall q: Pair {:trigger Slice(q)} :: q.Proper() ==>
                Slice(q) == if q.Has(peer) then AbortFor(old(Slice(q)), SideOf(q, peer), reason) else old(Slice(q))
    {
      hide LogOf, Less, Slice, Core;
      var todo := activeNegotiations.Keys;
      forall q: Pair ensures Slice(q).neg.Some? <==> q in todo { Reads(q); }
      while todo != {}
        invariant Core() && todo <= activeNegotiations.Keys <= old(activeNegotiations.Keys)
        invariant forall p :: p in activeNegotiations ==> p in todo || !p.Has(peer)
        invariant forall q: Pair {:trigger Slice(q)} :: q.Proper() ==>
                    Slice(q) == if q.Has(peer) && q !in todo
                        then AbortFor(old(Slice(q)), SideOf(q, peer), reason) else old(Slice(q))
        decreases todo
      {
        var key :| key in todo;
        Reads(key);
        if key.Has(peer) {
          AbortForPeer(key, peer, reason);
        }
        todo := todo - {key};
      }
    }

    method AbortForPeer(key: Pair, peer: PeerId, reason: Reason)
      requires Core() && key in activeNegotiations && key.Has(peer)
      modifies this`activeNegotiations, this`timers, this`outbox
      ensures Core() && activeNegotiations == old(activeNegotiations) - {key}
      ensures forall q: Pair {:trigger Slice(q)} :: q.Proper() ==>
                Slice(q) == if q == key then AbortFor(old(Slice(q)), SideOf(q, peer), reason) else old(Slice(q))
    {
      hide LogOf, Less, Slice, Core;
      Reads(key);
      PairOfEnds(key);
      var neg := activeNegotiations[key];
      var otherPeer := if neg.peerA == peer then neg.peerB else neg.peerA;
      if otherPeer in connections {
        SendMsg(otherPeer, peer, NegotiateAbort(reason));
      }
      FinishNegotiation(key);
    }

    /** cleanupPeerHealth: drop every record the peer takes part in. */
    method CleanupPeerHealth(peer: PeerId)
      requires Core() && (forall p :: p in activeNegotiations ==> !p.Has(peer))
      modifies this`pairHealthMap
      ensures Core() && pairHealthMap.Keys == (set p | p in old(pairHealthMap) && !p.Has(peer))
      ensures forall p :: p in pairHealthMap ==> pairHealthMap[p] == old(pairHealthMap)[p]
      ensures forall q: Pair {:trigger Slice(q)} ::
                Slice(q) == if q.Has(peer) then old(Slice(q)).(health := None) else old(Slice(q))
    {
      hide LogOf, Less;
      var todo := pairHealthMap.Keys;
      while todo != {}
        invariant Core() && todo <= pairHealthMap.Keys <= old(pairHealthMap.Keys)
        invariant forall p :: p in old(pairHealthMap) ==> (p in pairHealthMap <==> p in todo || !p.Has(peer))
        invariant forall p :: p in pairHealthMap ==> pairHealthMap[p] == old(pairHealthMap)[p]
        decreases todo
      {
        var key :| key in todo;
        if key.Has(peer) {
          pairHealthMap := pairHealthMap - {key};
        }
        todo := todo - {key};
      }
    }

    // ----- the periodic sweep -----

    method AbortStale(now: nat, ghost loFirst: set<Pair>)
      requires Inv()
      modifies this`activeNegotiations, this`timers, this`outbox
      ensures Inv()
      ensures forall q: Pair {:trigger Slice(q)} ::
              q.Proper() ==> Slice(q) == StepSweep(EnvAt(now, loFirst, q), old(Slice(q)))
    {
      hide LogOf, Less, Slice, Core;
      var todo := activeNegotiations.Keys;
      forall q: Pair ensures Slice(q).neg.Some? <==> q in todo { Reads(q); }
      while todo != {}
        invariant Core() && todo <= activeNegotiations.Keys <= old(activeNegotiations.Keys)
        invariant forall q: Pair {:trigger Slice(q)} :: q.Proper() ==>
                    Slice(q) == if q in todo then old(Slice(q)) else StepSweep(EnvAt(now, loFirst, q), old(Slice(q)))
        decreases todo
      {
        var key :| key in todo;
        Reads(key);
        if now - activeNegotiations[key].startedAt > STALE_AGE {
          AbortNegotiation(key, TimedOut);
        }
        todo := todo - {key};
      }
    }

    /** The JOIN of checkDirectProbes: both rows report relay and neither is forced. */
    function RelayPairs(): (r: set<Pair>)
      reads this`links
      ensures forall p: Pair :: p in r <==> p.Proper() && RelayPair(RowsOnly(p))
    {
      set k | k in links.Keys && Less(k.0, k.1) && (k.1, k.0) in links.Keys
              && links[k].mode.RelayPath? && links[(k.1, k.0)].mode.RelayPath?
              && links[k].forced.None? && links[(k.1, k.0)].forced.None? :: Pair(k.0, k.1)
    }

    function RowsOnly(p: Pair): PairState
      reads this`links
    {
      INIT.(rowLo := Lookup(links, (p.lo, p.hi)), rowHi := Lookup(links, (p.hi, p.lo)))
    }

    method CheckDirectProbes(now: nat, ghost loFirst: set<Pair>)
      requires Inv()
      modifies this`activeNegotiations, this`timers, this`nextTimer, this`outbox, pairHealthMap.Values
      ensures Inv()
      ensures forall q: Pair {:trigger Slice(q)} ::
              q.Proper() ==> Slice(q) == StepCheckDirect(EnvAt(now, loFirst, q), old(Slice(q)))
    {
      hide LogOf, Less, Slice, Core;
      var relayPairs := RelayPairs();
      var todo := relayPairs;
      forall q: Pair | q.Proper() ensures RelayPair(Slice(q)) <==> q in todo { ReadsRows(q); }
      while todo != {}
        invariant Inv() && todo <= relayPairs
        invariant forall q: Pair {:trigger Slice(q)} :: q.Proper() ==>
                    Slice(q) == if q in todo
                        then old(Slice(q)) else StepCheckDirect(EnvAt(now, loFirst, q), old(Slice(q)))
        decreases todo
      {
        var key :| key in todo;
        CheckDirectProbe(key, now, EnvAt(now, loFirst, key));
        todo := todo - {key};
      }
    }

    lemma ReadsRows(key: Pair)
      ensures Slice(key).rowLo == RowsOnly(key).rowLo && Slice(key).rowHi == RowsOnly(key).rowHi
    {
      hide LogOf, Less;
    }

    method CheckDirectProbe(key: Pair, now: nat, ghost e: Env)
      requires Inv() && key.Proper() && RelayPair(Slice(key)) && e.now == now
      requires e.relayLo == RelayOnFor(peers, relayEnabled, key.lo)
      modifies this`activeNegotiations, this`timers, this`nextTimer, this`outbox, pairHealthMap.Values
      ensures Inv()
      ensures forall q: Pair {:trigger Slice(q)} :: q.Proper() ==>
                Slice(q) == if q == key then StepCheckDirect(e, old(Slice(q))) else old(Slice(q))
    {
      hide LogOf, Less, Slice, Core;
      Reads(key);
      if key !in pairHealthMap { return; }
      var health := pairHealthMap[key];
      if key in activeNegotiations { return; }
      if key.lo !in connections || key.hi !in connections { return; }
      if now - health.lastDirectProbeAt < health.directProbeBackoff { return; }
      if !RelayOnFor(peers, relayEnabled, key.lo) { return; }
      InitiateDirectProbe(key, now, e);
    }

    // ----- a batch of health reports -----

    method UpsertLink(from: PeerId, other: PeerId, mode: Path)
      modifies this`links
      ensures links.Keys == old(links.Keys) + {(from, other)}
      ensures forall q: Pair {:trigger Slice(q)} :: q.Proper() ==>
                Slice(q) == if q == PairOf(from, other)
                    then StepUpsert(old(Slice(q)), SideOf(q, from), mode) else old(Slice(q))
    {
      hide LogOf, Less, Slice;
      var forced := if (from, other) in links then links[(from, other)].forced else None;
      links := links[(from, other) := Row(mode, forced)];
      forall q: Pair | q.Proper() ensures q.lo != q.hi { PairOfEnds(q); }
      PairOfSymmetric(from, other);
      NotReversed(PairOf(from, other));
      assert forall q: Pair {:trigger Slice(q)} ::
             (q.lo == from && q.hi == other) || (q.lo == other && q.hi == from) ==>
               q == Pair(from, other) || q == Pair(other, from);
      OnlyRowsChanged();
    }

    /** The transaction that stores the batch: one row that breaks a foreign key undoes them all. */
    method StoreReports(from: PeerId, reports: seq<HealthReport>, ghost now: nat, ghost loFirst: set<Pair>)
      requires Keyed()
      modifies this`links
      ensures Keyed()
      ensures forall q: Pair {:trigger Slice(q)} :: q.Proper() ==>
                Slice(q) == RunFrom(config, old(Slice(q)),
                                    Stamp(EnvAt(now, loFirst, q), if Storable(peers, from, reports)
                                          then UpsertsFor(from, reports, q) else []))
    {
      hide LogOf, Less, RunFrom, UpsertsFor, Stamp;
      var saved := links;
      var i := 0;
      forall q: Pair ensures RunFrom(config, Slice(q), Stamp(EnvAt(now, loFirst, q), UpsertsFor(from, reports[..0], q)))
          == Slice(q)
                     ensures RunFrom(config, Slice(q), Stamp(EnvAt(now, loFirst, q), [])) == Slice(q) {
        NoEvents(config, Slice(q), EnvAt(now, loFirst, q), from, reports, q);
      }
      while i < |reports| && from in peers && reports[i].peerId in peers
        invariant 0 <= i <= |reports| && Storable(peers, from, reports[..i]) && Keyed()
        invariant forall q: Pair {:trigger Slice(q)} :: q.Proper() ==>
                    Slice(q) == RunFrom(config, old(Slice(q)),
                                        Stamp(EnvAt(now, loFirst, q), UpsertsFor(from, reports[..i], q)))
      {
        var r := reports[i];
        UpsertLink(from, r.peerId, r.mode);
        forall q: Pair | q.Proper()
          ensures Slice(q) == RunFrom(config, old(Slice(q)),
                                      Stamp(EnvAt(now, loFirst, q), UpsertsFor(from, reports[..i + 1], q)))
        {
          UpsertNext(config, old(Slice(q)), EnvAt(now, loFirst, q), from, reports, i, q);
        }
        i := i + 1;
      }
      if i < |reports| {
        links := saved;
      } else {
        assert reports[..i] == reports;
      }
    }

    method ProcessReports(from: PeerId, reports: seq<HealthReport>, now: nat, loFirst: set<Pair>)
      requires Inv()
      modifies this`pairHealthMap, this`activeNegotiations, this`timers, this`nextTimer, this`outbox,
               pairHealthMap.Values
      ensures Inv() && Fresh()
      ensures forall q: Pair {:trigger Slice(q)} :: q.Proper() ==>
                Slice(q) == RunFrom(config, old(Slice(q)), Stamp(EnvAt(now, loFirst, q), ReportsFor(from, reports, q)))
    {
      hide LogOf, Less, RunFrom, ReportsFor, Stamp, Slice, Core, StepReport;
      var i := 0;
      forall q: Pair ensures RunFrom(config, Slice(q), Stamp(EnvAt(now, loFirst, q), ReportsFor(from, reports[..0], q)))
          == Slice(q) {
        NoEvents(config, Slice(q), EnvAt(now, loFirst, q), from, reports, q);
      }
      while i < |reports|
        invariant 0 <= i <= |reports| && Inv() && Fresh()
        invariant forall q: Pair {:trigger Slice(q)} :: q.Proper() ==>
                    Slice(q) == RunFrom(config, old(Slice(q)),
                                        Stamp(EnvAt(now, loFirst, q), ReportsFor(from, reports[..i], q)))
      {
        HandleOneReport(from, reports[i], now, loFirst);
        forall q: Pair | q.Proper()
          ensures Slice(q) == RunFrom(config, old(Slice(q)),
                                      Stamp(EnvAt(now, loFirst, q), ReportsFor(from, reports[..i + 1], q)))
        {
          ReportNext(config, old(Slice(q)), EnvAt(now, loFirst, q), from, reports, i, q);
        }
        i := i + 1;
      }
      assert reports[..i] == reports;
    }

    method HandleHealthReport(from: PeerId, reports: seq<HealthReport>, now: nat, loFirst: set<Pair>)
      requires Inv() && Keyed()
      modifies this`pairHealthMap, this`activeNegotiations, this`timers, this`nextTimer, this`links, this`outbox,
               pairHealthMap.Values
      ensures Inv() && Fresh() && Keyed()
      ensures forall q: Pair {:trigger Slice(q)} :: q.Proper() ==>
                Slice(q) == RunFrom(config, old(Slice(q)),
                                    Stamp(EnvAt(now, loFirst, q),
                                          EventsOfMessage(peers, from, HealthReportMsg(reports), q)))
    {
      hide LogOf, Less, RunFrom, UpsertsFor, ReportsFor, Stamp, Slice, Core;
      StoreReports(from, reports, now, loFirst);
      ProcessReports(from, reports, now, loFirst);
      forall q: Pair | q.Proper()
        ensures Slice(q) == RunFrom(config, old(Slice(q)),
                                    Stamp(EnvAt(now, loFirst, q),
                                          EventsOfMessage(peers, from, HealthReportMsg(reports), q)))
      {
        RunStampAppend(config, old(Slice(q)), EnvAt(now, loFirst, q),
                       if Storable(peers, from, reports)
                           then UpsertsFor(from, reports, q) else [], ReportsFor(from, reports, q));
      }
    }

    // ----- what is asked of the server -----

    /** A call that moves every slice by the events it is for that pair extends the run. */
    twostate lemma Extends(input: Input)
      requires old(Refines()) && history == old(history) + [input]
      requires forall q: Pair {:trigger Slice(q)} ::
               q.Proper() ==> Slice(q) == RunFrom(config, old(Slice(q)), TimedOf(input, q))
      ensures Refines()
    {
      hide LogOf, Less, Slice, RunFrom, Run, TimedOf, Project;
      forall q: Pair | q.Proper() ensures Slice(q) == Run(config, Project(history, q)) {
        ProjectExtend(config, old(history), input, q);
      }
    }

    ghost function InputAt(now: nat, loFirst: set<Pair>, call: Call): Input
      reads this`peers, this`relayEnabled
    {
      Input(now, peers, relayEnabled, loFirst, call)
    }

    method HandleProbeMessage(from: PeerId, msg: AgentMessage, now: nat, ghost loFirst: set<Pair>)
      requires Inv() && !msg.HealthReportMsg?
      modifies this`activeNegotiations, this`timers, this`nextTimer, this`outbox, pairHealthMap.Values
      ensures Inv()
      ensures forall q: Pair {:trigger Slice(q)} :: q.Proper() ==>
                Slice(q) == if q == PairOf(from, msg.other)
                    then StepMessage(config, EnvAt(now, loFirst, q), old(Slice(q)), SideOf(q, from), msg)
                            else old(Slice(q))
    {
      hide LogOf, Less, Slice, Core, StepRelayReady, StepRelayResult, StepDirectReady, StepDirectResult, StepProbeError;
      match msg
      case RelayReadyMsg(other, ip, port, nonce) => HandleProbeRelayReady(from, other, ip, port, nonce, now, loFirst);
      case RelayResultMsg(other, ok) => HandleProbeRelayResult(from, other, ok);
      case DirectReadyMsg(other, r) => HandleProbeDirectReady(from, other, r, now, loFirst);
      case DirectResultMsg(other, ok) => HandleProbeDirectResult(from, other, ok);
      case ProbeErrorMsg(other) => HandleProbeError(from, other);
    }

    /** The message router. */
    method Route(from: PeerId, msg: AgentMessage, now: nat, loFirst: set<Pair>)
      requires Inv() && Keyed()
      modifies this`pairHealthMap, this`activeNegotiations, this`timers, this`nextTimer, this`links, this`outbox,
               pairHealthMap.Values
      ensures Inv() && Fresh() && Keyed()
      ensures forall q: Pair {:trigger Slice(q)} :: q.Proper() ==>
                Slice(q) == RunFrom(config, old(Slice(q)), TimedOf(InputAt(now, loFirst, Message(from, msg)), q))
    {
      hide LogOf, Less, Slice, Core, RunFrom, Stamp, EventsOfMessage, StepMessage;
      if msg.HealthReportMsg? {
        HandleHealthReport(from, msg.reports, now, loFirst);
      } else {
        HandleProbeMessage(from, msg, now, loFirst);
        forall q: Pair | q.Proper()
          ensures Slice(q) == RunFrom(config, old(Slice(q)), TimedOf(InputAt(now, loFirst, Message(from, msg)), q))
        {
          ProbeMessageMeans(config, EnvAt(now, loFirst, q), old(Slice(q)), peers, from, msg, q);
        }
      }
    }

    // ----- the server's entry points: each call extends the history -----

    method HandleNegotiateMessage(from: PeerId, msg: AgentMessage, now: nat, loFirst: set<Pair>)
      requires Valid()
      modifies this`pairHealthMap, this`activeNegotiations, this`timers, this`nextTimer, this`links, this`outbox,
               this`history
      modifies pairHealthMap.Values
      ensures Valid() && Fresh() && history == old(history) + [InputAt(now, loFirst, Message(from, msg))]
    {
      hide LogOf, Less, Slice, Core, RunFrom, TimedOf;
      Route(from, msg, now, loFirst);
      history := history + [InputAt(now, loFirst, Message(from, msg))];
      Extends(InputAt(now, loFirst, Message(from, msg)));
    }

    /** wsHandler.open: a new socket takes the place of any the peer had. */
    method OnOpen(peer: PeerId, socket: nat, now: nat)
      requires Valid()
      modifies this`connections, this`history
      ensures Valid() && connections == old(connections)[peer := socket]
      ensures history == old(history) + [InputAt(now, {}, Opened(peer))]
    {
      hide LogOf, Less, Slice, Core, RunFrom, Run, Project, Stamp, TimedOf;
      Attach(peer, socket);
      history := history + [InputAt(now, {}, Opened(peer))];
      forall q: Pair | q.Proper()
        ensures Slice(q) == RunFrom(config, old(Slice(q)), TimedOf(InputAt(now, {}, Opened(peer)), q))
      {
        OpenedMeans(config, InputAt(now, {}, Opened(peer)), old(Slice(q)), q);
      }
      Extends(InputAt(now, {}, Opened(peer)));
    }

    method Attach(peer: PeerId, socket: nat)
      modifies this`connections
      ensures connections == old(connections)[peer := socket]
      ensures forall q: Pair {:trigger Slice(q)} :: q.Proper() ==>
                Slice(q) == if q.Has(peer) then old(Slice(q)).SetConnected(SideOf(q, peer), true) else old(Slice(q))
    {
      hide LogOf, Less;
      connections := connections[peer := socket];
      forall q: Pair | q.Proper() ensures q.lo != q.hi { PairOfEnds(q); }
    }

    /** wsHandler.close: whichever socket closed, the peer's entry goes, and its negotiations end. */
    method OnClose(peer: PeerId, now: nat)
      requires Valid()
      modifies this`connections, this`activeNegotiations, this`timers, this`outbox, this`history
      ensures Valid() && connections == old(connections) - {peer}
      ensures history == old(history) + [InputAt(now, {}, Closed(peer))]
    {
      hide LogOf, Less, Slice, Core, RunFrom, Run, Project, Stamp, TimedOf;
      Disconnect(peer);
      AbortPeerNegotiations(peer, WsReset);
      history := history + [InputAt(now, {}, Closed(peer))];
      forall q: Pair | q.Proper()
        ensures Slice(q) == RunFrom(config, old(Slice(q)), TimedOf(InputAt(now, {}, Closed(peer)), q))
      {
        CloseMeans(config, InputAt(now, {}, Closed(peer)), old(Slice(q)), q);
      }
      Extends(InputAt(now, {}, Closed(peer)));
    }

    method Disconnect(peer: PeerId)
      modifies this`connections
      ensures connections == old(connections) - {peer}
      ensures forall q: Pair {:trigger Slice(q)} :: q.Proper() ==>
                Slice(q) == if q.Has(peer) then old(Slice(q)).SetConnected(SideOf(q, peer), false) else old(Slice(q))
    {
      hide LogOf, Less;
      connections := connections - {peer};
      forall q: Pair | q.Proper() ensures q.lo != q.hi { PairOfEnds(q); }
    }

    /** A timer whose deadline has come fires. */
    method OnTimer(id: nat, now: nat)
      requires Valid() && id in timers && TimerOf(timers[id]).deadline <= now
      modifies this`activeNegotiations, this`timers, this`outbox, this`history, pairHealthMap.Values
      ensures Valid() && history == old(history) + [InputAt(now, {}, Fired(old(timers)[id].key))]
    {
      hide LogOf, Less, Slice, Core, RunFrom, Run, Project, Stamp, TimedOf, StepTimer;
      ghost var key := timers[id].key;
      FireTimer(id, now, EnvAt(now, {}, key));
      history := history + [InputAt(now, {}, Fired(key))];
      forall q: Pair | q.Proper()
        ensures Slice(q) == RunFrom(config, old(Slice(q)), TimedOf(InputAt(now, {}, Fired(key)), q))
      {
        FiredMeans(config, InputAt(now, {}, Fired(key)), old(Slice(q)), q);
      }
      Extends(InputAt(now, {}, Fired(key)));
    }

    /** The ten-second interval: abort stale negotiations, then look for direct probes that are due. */
    method StaleSweep(now: nat, ghost loFirst: set<Pair>)
      requires Valid()
      modifies this`activeNegotiations, this`timers, this`nextTimer, this`outbox, this`history, pairHealthMap.Values
      ensures Valid() && history == old(history) + [InputAt(now, loFirst, Swept)]
    {
      hide LogOf, Less, Slice, Core, RunFrom, Run, Project, Stamp, TimedOf, StepSweep, StepCheckDirect;
      AbortStale(now, loFirst);
      CheckDirectProbes(now, loFirst);
      history := history + [InputAt(now, loFirst, Swept)];
      forall q: Pair | q.Proper()
        ensures Slice(q) == RunFrom(config, old(Slice(q)), TimedOf(InputAt(now, loFirst, Swept), q))
      {
        SweptMeans(config, InputAt(now, loFirst, Swept), old(Slice(q)), q);
      }
      Extends(InputAt(now, loFirst, Swept));
    }

    /** The admin's force command. */
    method OnForceMode(a: PeerId, b: PeerId, target: Option<Forced>, now: nat)
      requires Valid()
      modifies this`pairHealthMap, this`activeNegotiations, this`timers, this`links, this`outbox, this`history,
               pairHealthMap.Values
      ensures Valid() && Fresh() && history == old(history) + [InputAt(now, {}, Forces(a, b, target))]
    {
      hide LogOf, Less, Slice, Core, RunFrom, Run, Project, Stamp, TimedOf, StepForce;
      HandleForceMode(a, b, target);
      history := history + [InputAt(now, {}, Forces(a, b, target))];
      forall q: Pair | q.Proper()
        ensures Slice(q) == RunFrom(config, old(Slice(q)), TimedOf(InputAt(now, {}, Forces(a, b, target)), q))
      {
        ForcesMeans(config, InputAt(now, {}, Forces(a, b, target)), old(Slice(q)), q);
      }
      Extends(InputAt(now, {}, Forces(a, b, target)));
    }

    /** DELETE /api/peers/:id: the row and, by cascade, its link and port rows. */
    method OnDeletePeer(peer: PeerId, now: nat)
      requires Valid()
      modifies this`peers, this`links, this`ports, this`history
      ensures Valid() && peers == old(peers) - {peer}
      ensures history == old(history) + [old(InputAt(now, {}, Deleted(peer)))]
    {
      hide LogOf, Less, Slice, Core, RunFrom, Run, Project, Stamp, TimedOf;
      ghost var input := InputAt(now, {}, Deleted(peer));
      DeleteRow(peer);
      history := history + [input];
      forall q: Pair | q.Proper() ensures Slice(q) == RunFrom(config, old(Slice(q)), TimedOf(input, q)) {
        DeletedMeans(config, input, old(Slice(q)), q);
      }
      Extends(input);
    }

    /** New link rows change the slices in their rows. */
    twostate lemma OnlyRowsChanged()
      requires unchanged(`connections) && unchanged(`activeNegotiations) && unchanged(`timers)
      requires unchanged(`pairHealthMap) && unchanged(`outbox) && unchanged(pairHealthMap.Values)
      ensures forall q: Pair {:trigger Slice(q)} ::
                && Slice(q) == old(Slice(q)).(rowLo := Lookup(links, (q.lo, q.hi)),
                                              rowHi := Lookup(links, (q.hi, q.lo)))
                && old(Slice(q)).rowLo == Lookup(old(links), (q.lo, q.hi))
                   && old(Slice(q)).rowHi == Lookup(old(links), (q.hi, q.lo))
    {
      hide LogOf, Less, Lookup;
    }

    /** DELETE FROM peers, with the cascades of peer_links and peer_ports. */
    method DeleteRow(peer: PeerId)
      requires Keyed()
      modifies this`peers, this`links, this`ports
      ensures Keyed() && peers == old(peers) - {peer}
      ensures links == map k | k in old(links) && k.0 != peer && k.1 != peer :: old(links)[k]
      ensures ports == map k | k in old(ports) && k.0 != peer && k.1 != peer :: old(ports)[k]
      ensures forall q: Pair {:trigger Slice(q)} ::
                Slice(q) == if q.Has(peer) then old(Slice(q)).(rowLo := None, rowHi := None) else old(Slice(q))
    {
      hide LogOf, Less, Slice;
      peers := peers - {peer};
      links := map k | k in links && k.0 != peer && k.1 != peer :: links[k];
      ports := map k | k in ports && k.0 != peer && k.1 != peer :: ports[k];
      OnlyRowsChanged();
    }

    /** The process ends and starts again: memory and sockets are gone, the tables stay. */
    method OnRestart(now: nat)
      requires Valid()
      modifies this`pairHealthMap, this`activeNegotiations, this`timers, this`connections, this`history
      ensures Valid() && history == old(history) + [InputAt(now, {}, Restarted)]
      ensures pairHealthMap == map[] && activeNegotiations == map[] && timers == map[] && connections == map[]
    {
      hide LogOf, Less, Slice, RunFrom, Run, Project, Stamp, TimedOf;
      ClearMemory();
      history := history + [InputAt(now, {}, Restarted)];
      forall q: Pair | q.Proper()
        ensures Slice(q) == RunFrom(config, old(Slice(q)), TimedOf(InputAt(now, {}, Restarted), q))
      {
        RestartedMeans(config, InputAt(now, {}, Restarted), old(Slice(q)), q);
      }
      Extends(InputAt(now, {}, Restarted));
    }

    method ClearMemory()
      modifies this`pairHealthMap, this`activeNegotiations, this`timers, this`connections
      ensures Inv() && pairHealthMap == map[] && activeNegotiations == map[] && timers == map[] && connections == map[]
      ensures forall q: Pair {:trigger Slice(q)} ::
                Slice(q) == old(Slice(q)).(connLo := false, connHi := false, health := None, neg := None)
    {
      hide LogOf, Less;
      pairHealthMap, activeNegotiations, timers, connections := map[], map[], map[], map[];
    }

    /** Other changes of the tables: peers registered or updated, relay switched on or off, ports reported. */
    method OnTables(newPeers: map<PeerId, PeerRow>, newRelay: map<string, bool>, newPorts: map<(PeerId, PeerId), nat>)
      requires Valid() && peers.Keys <= newPeers.Keys
      requires forall k :: k in newPorts ==> k.0 in newPeers && k.1 in newPeers
      modifies this`peers, this`relayEnabled, this`ports
      ensures Valid() && peers == newPeers && relayEnabled == newRelay && ports == newPorts
    {
      hide LogOf, Less, Slice, Core, Run, Project;
      peers, relayEnabled, ports := newPeers, newRelay, newPorts;
    }
  }
}
