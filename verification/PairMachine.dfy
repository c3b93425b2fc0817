/** One peer pair of the failover protocol of packages/server/src/negotiate.ts, as a state machine on values.
    The Server class is proved, handler by handler, to act on every pair as this machine does. */
module PairMachine {
  import opened Common

  /** An end of the pair: Lo is peerA (first in the key), Hi is peerB. */
  datatype Side = Lo | Hi {
    function Other(): Side { if Lo? then Hi else Lo }
  }

  datatype Path = DirectPath | RelayPath
  datatype Forced = ForceDirect | ForceRelay
  datatype Action = SwitchRelay | SwitchDirect | Stay
  datatype Reason = AdminForce | TimedOut | WsReset | PeerRemoved

  /** Messages from the server to an agent; the other end of the pair is the `with` field. */
  datatype Body =
    | ProbeRelayServe
    | ProbeRelayCheck(meshIpv4: string, tcpPort: nat, nonce: string, clientPubkey: string, serverPubkey: string)
    | ProbeDirectStart
    | ProbeDirectGo(peerIpv4: string, peerUdpPort: nat, peerNonce: string)
    | ProbeVerdict(action: Action)
    | NegotiateAbort(reason: Reason)
    | ForceMode(mode: Option<Forced>)

  /** One push towards an end; `delivered` says whether that end had a socket at the time. */
  datatype Sent = Sent(to: Side, body: Body, delivered: bool)

  /** STREAK_THRESHOLD and the timeouts are literals of the source. */
  const STREAK_THRESHOLD: nat := 3
  const RELAY_PROBE_TIMEOUT: nat := 15_000
  const DIRECT_READY_TIMEOUT: nat := 10_000
  const DIRECT_RESULT_TIMEOUT: nat := 10_000
  const BACKOFF_MAX: nat := 240_000
  const SWEEP_INTERVAL: nat := 10_000
  const STALE_AGE: nat := 30_000

  /** GRACE_PERIOD_MS and DIRECT_PROBE_BACKOFF_INIT_MS come from the process environment. */
  datatype Config = Config(grace: nat, init: nat)

  datatype Health = Health(streakAB: nat, streakBA: nat, lastDirectProbeAt: nat, backoff: nat,
                           forced: Option<Forced>, joinedA: Option<nat>, joinedB: Option<nat>) {
    function Streak(x: Side): nat { if x.Lo? then streakAB else streakBA }
    function Joined(x: Side): Option<nat> { if x.Lo? then joinedA else joinedB }
    function SetStreak(x: Side, n: nat): Health { if x.Lo? then this.(streakAB := n) else this.(streakBA := n) }
    function Join(x: Side, now: nat): Health {
      if Joined(x).Some? then this
      else if x.Lo? then this.(joinedA := Some(now)) else this.(joinedB := Some(now))
    }
  }

  datatype Ready = Ready(udpPort: nat, nonce: string)
  datatype TimerKind = RelayTimeout | ReadyTimeout | ResultTimeout
  datatype Timer = Timer(kind: TimerKind, deadline: nat)

  /** An active negotiation, with the timer armed for it. */
  datatype Neg =
    | RelayProbe(startedAt: nat, timer: Option<Timer>, server: Side)
    | DirectProbe(startedAt: nat, timer: Option<Timer>, readyA: Option<Ready>, readyB: Option<Ready>,
                  resultA: Option<bool>, resultB: Option<bool>)

  /** The columns of a peer_links row that the protocol reads. */
  datatype Row = Row(mode: Path, forced: Option<Forced>)

  /** All the server holds about one pair: rowLo is the link row from Lo to Hi. */
  datatype PairState = PairState(connLo: bool, connHi: bool, health: Option<Health>, neg: Option<Neg>,
                                 rowLo: Option<Row>, rowHi: Option<Row>, log: seq<Sent>) {
    predicate Connected(x: Side) { if x.Lo? then connLo else connHi }
    predicate BothConnected() { connLo && connHi }
    function SetConnected(x: Side, up: bool): PairState { if x.Lo? then this.(connLo := up) else this.(connHi := up) }
  }

  const INIT := PairState(false, false, None, None, None, None, [])

  datatype Info = Info(pubkey: string, publicIp: string)

  /** What a handler reads of the shared tables and the clock. `loFirst` is which of two link rows an
      unordered LIMIT 1 query returns; the query leaves that open. */
  datatype Env = Env(now: nat, infoLo: Option<Info>, infoHi: Option<Info>, relayLo: bool, relayHi: bool,
                     loFirst: bool) {
    predicate RelayOn(x: Side) { if x.Lo? then relayLo else relayHi }
  }

  /** What can happen to a pair. */
  datatype Event =
    | Connect(from: Side)
    | Close(from: Side)
    | Upsert(from: Side, mode: Path)
    | Report(from: Side, mode: Path, rxAlive: bool)
    | RelayReady(from: Side, meshIpv4: string, tcpPort: nat, nonce: string)
    | RelayResult(from: Side, success: bool)
    | DirectReady(from: Side, ready: Ready)
    | DirectResult(from: Side, success: bool)
    | ProbeError(from: Side)
    | TimerFires
    | SweepStale
    | CheckDirect
    | Force(from: Side, target: Option<Forced>)
    | Purge(from: Side)
    | Cascade
    | Restart

  datatype Timed = Timed(env: Env, ev: Event)

  // ----- sending -----

  function Send(s: PairState, to: Side, body: Body): PairState {
    s.(log := s.log + [Sent(to, body, s.Connected(to))])
  }

  /** One message to each end, Lo first. */
  function SendBoth(s: PairState, body: Body): (r: PairState)
    ensures r == s.(log := s.log + [Sent(Lo, body, s.connLo), Sent(Hi, body, s.connHi)])
  {
    Send(Send(s, Lo, body), Hi, body)
  }

  function SendIfConnected(s: PairState, to: Side, body: Body): PairState {
    if s.Connected(to) then Send(s, to, body) else s
  }

  function SendBothIfConnected(s: PairState, body: Body): PairState {
    SendIfConnected(SendIfConnected(s, Lo, body), Hi, body)
  }

  function Finish(s: PairState): PairState {
    s.(neg := None)
  }

  function Abort(s: PairState, reason: Reason): PairState {
    if s.neg.None? then s else Finish(SendBothIfConnected(s, NegotiateAbort(reason)))
  }

  /** abortPeerNegotiations: only the other end is told. */
  function AbortFor(s: PairState, gone: Side, reason: Reason): PairState {
    if s.neg.None? then s else Finish(SendIfConnected(s, gone.Other(), NegotiateAbort(reason)))
  }

  // ----- health -----

  function NewHealth(c: Config): Health {
    Health(0, 0, 0, c.init, None, None, None)
  }

  function HealthOf(c: Config, s: PairState): Health {
    if s.health.Some? then s.health.value else NewHealth(c)
  }

  function Doubled(h: Health): Health {
    h.(backoff := Min(h.backoff * 2, BACKOFF_MAX))
  }

  function DoubleBackoff(s: PairState): PairState {
    if s.health.Some? then s.(health := Some(Doubled(s.health.value))) else s
  }

  function ResetBackoff(c: Config, s: PairState): PairState {
    if s.health.Some? then s.(health := Some(s.health.value.(backoff := c.init))) else s
  }

  function ClearStreaks(s: PairState): PairState {
    if s.health.Some? then s.(health := Some(s.health.value.(streakAB := 0, streakBA := 0))) else s
  }

  /** The DB's forced mode for the pair: one row of at most two, whichever the query returns. */
  function DbForced(e: Env, s: PairState): Option<Forced> {
    if s.rowLo.Some? && (s.rowHi.None? || e.loFirst) then s.rowLo.value.forced
    else if s.rowHi.Some? then s.rowHi.value.forced
    else None
  }

  /** Skipped for the first grace milliseconds after the side's first report (a join time of 0 is falsy). */
  predicate InGrace(c: Config, h: Health, x: Side, now: nat) {
    h.Joined(x).Some? && h.Joined(x).value != 0 && now - h.Joined(x).value < c.grace
  }

  function Upserted(row: Option<Row>, mode: Path): Option<Row> {
    Some(Row(mode, if row.Some? then row.value.forced else None))
  }

  /** The stored row keeps its forced mode. */
  function StepUpsert(s: PairState, x: Side, mode: Path): PairState {
    if x.Lo? then s.(rowLo := Upserted(s.rowLo, mode)) else s.(rowHi := Upserted(s.rowHi, mode))
  }

  /** The record after a report: joined, and counted unless in grace or on relay. */
  function Recorded(c: Config, h: Health, x: Side, mode: Path, rxAlive: bool, now: nat): Health {
    var j := h.Join(x, now);
    if InGrace(c, j, x, now) || mode.RelayPath? then j
    else j.SetStreak(x, if rxAlive then 0 else j.Streak(x) + 1)
  }

  /** The report counted, and both streaks stand at the threshold. */
  predicate Ripe(c: Config, h: Health, x: Side, mode: Path, rxAlive: bool, now: nat) {
    var h' := Recorded(c, h, x, mode, rxAlive, now);
    && !InGrace(c, h.Join(x, now), x, now) && mode.DirectPath?
    && h'.streakAB >= STREAK_THRESHOLD && h'.streakBA >= STREAK_THRESHOLD
  }

  function StepReport(c: Config, e: Env, s: PairState, x: Side, mode: Path, rxAlive: bool): PairState {
    var s' := s.(health := Some(Recorded(c, HealthOf(c, s), x, mode, rxAlive, e.now)));
    if Ripe(c, HealthOf(c, s), x, mode, rxAlive, e.now) then ConsiderRelayProbe(e, s', x) else s'
  }

  function KnownForced(e: Env, s: PairState): Option<Forced>
    requires s.health.Some?
  {
    if s.health.value.forced.Some? then s.health.value.forced else DbForced(e, s)
  }

  function ConsiderRelayProbe(e: Env, s: PairState, from: Side): PairState
    requires s.health.Some?
  {
    if s.neg.Some? then s
    else if KnownForced(e, s).Some? then s.(health := Some(s.health.value.(forced := KnownForced(e, s))))
    else if !s.BothConnected() || !e.RelayOn(from) then s
    else OpenRelay(e, s)
  }

  /** The side with the higher streak serves; Lo on a tie. */
  function OpenRelay(e: Env, s: PairState): PairState
    requires s.health.Some?
  {
    var server := if s.health.value.streakAB >= s.health.value.streakBA then Lo else Hi;
    var neg := RelayProbe(e.now, Some(Timer(RelayTimeout, e.now + RELAY_PROBE_TIMEOUT)), server);
    Send(s.(neg := Some(neg)), server, ProbeRelayServe)
  }

  // ----- relay probe -----

  function InfoOf(e: Env, x: Side): Option<Info> { if x.Lo? then e.infoLo else e.infoHi }

  function StepRelayReady(e: Env, s: PairState, x: Side, meshIpv4: string, tcpPort: nat, nonce: string): PairState {
    if s.neg.None? || !s.neg.value.RelayProbe? || x != s.neg.value.server then s
    else if e.infoLo.None? || e.infoHi.None? then Abort(s, TimedOut)
    else Send(s, x.Other(), ProbeRelayCheck(meshIpv4, tcpPort, nonce,
                                            InfoOf(e, x.Other()).value.pubkey, InfoOf(e, x).value.pubkey))
  }

  function StepRelayResult(s: PairState, x: Side, success: bool): PairState {
    if s.neg.None? || !s.neg.value.RelayProbe? || x == s.neg.value.server then s
    else ClearStreaks(Finish(SendBoth(s, ProbeVerdict(if success then SwitchRelay else Stay))))
  }

  // ----- direct probe -----

  /** The row of the pair passes the JOIN of checkDirectProbes. */
  predicate RelayPair(s: PairState) {
    && s.rowLo.Some? && s.rowHi.Some?
    && s.rowLo.value.mode.RelayPath? && s.rowHi.value.mode.RelayPath?
    && s.rowLo.value.forced.None? && s.rowHi.value.forced.None?
  }

  function StepCheckDirect(e: Env, s: PairState): PairState {
    if !RelayPair(s) || s.health.None? || s.neg.Some? || !s.BothConnected() then s
    else if e.now - s.health.value.lastDirectProbeAt < s.health.value.backoff || !e.relayLo then s
    else OpenDirect(e, s)
  }

  function OpenDirect(e: Env, s: PairState): PairState
    requires s.health.Some?
  {
    var neg := DirectProbe(e.now, Some(Timer(ReadyTimeout, e.now + DIRECT_READY_TIMEOUT)), None, None, None, None);
    SendBoth(s.(health := Some(s.health.value.(lastDirectProbeAt := e.now)), neg := Some(neg)), ProbeDirectStart)
  }

  function StepDirectReady(e: Env, s: PairState, x: Side, r: Ready): PairState {
    if s.neg.None? || !s.neg.value.DirectProbe? then s
    else
      var n := if x.Lo? then s.neg.value.(readyA := Some(r)) else s.neg.value.(readyB := Some(r));
      if n.readyA.None? || n.readyB.None? then s.(neg := Some(n))
      else if e.infoLo.None? || e.infoHi.None? then Abort(s, TimedOut)
      else
        var s1 := Send(s, Lo, ProbeDirectGo(e.infoHi.value.publicIp, n.readyB.value.udpPort, n.readyB.value.nonce));
        var s2 := Send(s1, Hi, ProbeDirectGo(e.infoLo.value.publicIp, n.readyA.value.udpPort, n.readyA.value.nonce));
        s2.(neg := Some(n.(timer := Some(Timer(ResultTimeout, e.now + DIRECT_RESULT_TIMEOUT)))))
  }

  function StepDirectResult(c: Config, s: PairState, x: Side, success: bool): PairState {
    if s.neg.None? || !s.neg.value.DirectProbe? then s
    else
      var n := if x.Lo? then s.neg.value.(resultA := Some(success)) else s.neg.value.(resultB := Some(success));
      if n.resultA.None? || n.resultB.None? then s.(neg := Some(n))
      else
        var both := n.resultA.value && n.resultB.value;
        var s' := Finish(SendBoth(s, ProbeVerdict(if both then SwitchDirect else Stay)));
        if both then ResetBackoff(c, s') else DoubleBackoff(s')
  }

  // ----- errors, timers, sweep -----

  function StepProbeError(s: PairState): PairState {
    if s.neg.None? then s
    else Abort(if s.neg.value.DirectProbe? then DoubleBackoff(s) else s, TimedOut)
  }

  function StepTimer(e: Env, s: PairState): PairState {
    if s.neg.None? || s.neg.value.timer.None? || e.now < s.neg.value.timer.value.deadline then s
    else match s.neg.value.timer.value.kind
      case RelayTimeout => Abort(s, TimedOut)
      case ReadyTimeout => DoubleBackoff(Finish(SendBothIfConnected(s, ProbeVerdict(Stay))))
      case ResultTimeout => DoubleBackoff(Finish(SendBoth(s, ProbeVerdict(Stay))))
  }

  function StepSweep(e: Env, s: PairState): PairState {
    if s.neg.Some? && e.now - s.neg.value.startedAt > STALE_AGE then Abort(s, TimedOut) else s
  }

  // ----- admin, reaper, restart -----

  function ForcedRow(row: Option<Row>, target: Option<Forced>): Option<Row> {
    if row.Some? then Some(row.value.(forced := target)) else None
  }

  function ForcedHealth(c: Config, h: Health, target: Option<Forced>): Health {
    var h' := h.(forced := target, streakAB := 0, streakBA := 0);
    if target.None? then h'.(backoff := c.init) else h'
  }

  /** The end named first in the command is told first. */
  function StepForce(c: Config, s: PairState, first: Side, target: Option<Forced>): PairState {
    var s1 := if s.neg.Some? then Finish(SendBoth(s, NegotiateAbort(AdminForce))) else s;
    var s2 := s1.(health := Some(ForcedHealth(c, HealthOf(c, s1), target)),
                  rowLo := ForcedRow(s1.rowLo, target), rowHi := ForcedRow(s1.rowHi, target));
    Send(Send(s2, first, ForceMode(target)), first.Other(), ForceMode(target))
  }

  function Step(c: Config, s: PairState, t: Timed): PairState {
    var e := t.env;
    match t.ev
    case Connect(x) => s.SetConnected(x, true)
    case Close(x) => AbortFor(s.SetConnected(x, false), x, WsReset)
    case Upsert(x, mode) => StepUpsert(s, x, mode)
    case Report(x, mode, rxAlive) => StepReport(c, e, s, x, mode, rxAlive)
    case RelayReady(x, ip, port, nonce) => StepRelayReady(e, s, x, ip, port, nonce)
    case RelayResult(x, success) => StepRelayResult(s, x, success)
    case DirectReady(x, r) => StepDirectReady(e, s, x, r)
    case DirectResult(x, success) => StepDirectResult(c, s, x, success)
    case ProbeError(_) => StepProbeError(s)
    case TimerFires => StepTimer(e, s)
    case SweepStale => StepSweep(e, s)
    case CheckDirect => StepCheckDirect(e, s)
    case Force(x, target) => StepForce(c, s, x, target)
    case Purge(x) => AbortFor(s, x, PeerRemoved).(health := None)
    case Cascade => s.(rowLo := None, rowHi := None)
    case Restart => s.(connLo := false, connHi := false, health := None, neg := None)
  }

  /** The state after a whole run. */
  function RunFrom(c: Config, s: PairState, tr: seq<Timed>): PairState {
    if tr == [] then s else Step(c, RunFrom(c, s, tr[..|tr| - 1]), tr[|tr| - 1])
  }

  function Run(c: Config, tr: seq<Timed>): PairState {
    RunFrom(c, INIT, tr)
  }

  lemma {:induction false} RunFromAppend(c: Config, s: PairState, a: seq<Timed>, b: seq<Timed>)
    ensures RunFrom(c, s, a + b) == RunFrom(c, RunFrom(c, s, a), b)
    decreases |b|
  {
    if b == [] {
      assert a + b == a;
    } else {
      var l := |b| - 1;
      assert (a + b)[..|a + b| - 1] == a + b[..l];
      RunFromAppend(c, s, a, b[..l]);
    }
  }

  lemma RunOne(c: Config, s: PairState, t: Timed)
    ensures RunFrom(c, s, [t]) == Step(c, s, t)
  {
    assert [t][..|[t]| - 1] == [];
  }

  // ----- the standing invariant -----

  /** While a negotiation is active both ends hold sockets, the pair has its health record, and the one
      timer armed fits the phase. */
  predicate Sound(s: PairState) {
    s.neg.Some? ==>
      && s.BothConnected() && s.health.Some? && s.neg.value.timer.Some?
      && match s.neg.value
         case RelayProbe(_, t, _) => t.value.kind.RelayTimeout?
         case DirectProbe(_, t, ra, rb, xa, xb) =>
           && t.value.kind == (if ra.Some? && rb.Some? then ResultTimeout else ReadyTimeout)
           && (xa.None? || xb.None?)
  }

  lemma SoundStep(c: Config, s: PairState, t: Timed)
    requires Sound(s)
    ensures Sound(Step(c, s, t))
  {
    match t.ev
    case Report(x, mode, rxAlive) =>
    case DirectReady(x, r) =>
    case _ =>
  }

  /** Both ends of an active negotiation stay connected over every run: no open, close, replaced
      socket, reaper pass or sweep leaves a negotiation with an absent end or without its timer. */
  lemma {:induction false} SoundRun(c: Config, tr: seq<Timed>)
    ensures Sound(Run(c, tr))
  {
    if tr != [] {
      SoundRun(c, tr[..|tr| - 1]);
      SoundStep(c, Run(c, tr[..|tr| - 1]), tr[|tr| - 1]);
    }
  }
}
