/** What stands behind a switch-direct verdict, across the whole system. */
module DirectEvidence {
  import opened Common
  import opened PairMachine
  import opened AgentMachine
  import opened Sessions
  import opened RelayEvidence
  import opened System

  /** What has happened so far: the agents' past and the server's log. */
  datatype Facts = Facts(past: Past, log: seq<Sent>)

  function FactsOf(y: Sys): Facts { Facts(y.past, y.pair.log) }

  predicate Owned(f: Facts, nonce: string, x: Side) {
    nonce in f.past.issued && f.past.issued[nonce] == x
  }

  /** End x has announced this port and nonce in a ready message. */
  predicate Announced(f: Facts, x: Side, r: Ready) {
    r in f.past.announced.At(x)
  }

  /** m is a go the server has sent to end x. */
  predicate GoTo(f: Facts, x: Side, m: Sent) {
    m in f.log && m.to == x && m.body.ProbeDirectGo?
  }

  /** What a go tells of the other end. */
  function Tells(m: Sent): Ready
    requires m.body.ProbeDirectGo?
  {
    Ready(m.body.peerUdpPort, m.body.peerNonce)
  }

  /** The evidence of end x, a received datagram d, with the two gos behind it. Its sender is the other end; its
      nonce is the one the go `m` told x to expect, and the other end has announced it; it was sent to the address
      and port that the go `toSender` told the sender, and x has announced that port. */
  predicate Crossed(f: Facts, x: Side, d: Datagram, m: Sent, toSender: Sent) {
    && d in f.past.got.At(x) && d.from == x.Other()
    && GoTo(f, x, m) && m.body.peerNonce == d.nonce && Announced(f, x.Other(), Tells(m))
    && GoTo(f, x.Other(), toSender) && toSender.body.peerIpv4 == d.ip && toSender.body.peerUdpPort == d.port
    && Announced(f, x, Tells(toSender))
  }

  ghost predicate Genuine(f: Facts, x: Side, d: Datagram) {
    exists m, toSender :: Crossed(f, x, d, m, toSender)
  }

  /** End x has received a datagram sent by the other end with the nonce that end announced for it. */
  ghost predicate Proved(f: Facts, x: Side) {
    exists d :: Genuine(f, x, d)
  }

  ghost predicate GoodUp(f: Facts, x: Side, ev: Event) {
    && FromAgent(ev) && ev.from == x
    && (ev.DirectReady? ==> Announced(f, x, ev.ready))
    && (ev.DirectResult? && ev.success ==> Proved(f, x))
  }

  predicate GoodDown(f: Facts, x: Side, b: Body) {
    b.ProbeDirectGo? ==> GoTo(f, x, Sent(x, b, true))
  }

  /** Some go told end x to expect this nonce. */
  ghost predicate Expects(f: Facts, x: Side, nonce: string) {
    exists m :: GoTo(f, x, m) && m.body.peerNonce == nonce
  }

  ghost predicate GoodEntry(f: Facts, x: Side, e: Entry) {
    && Announced(f, x, Ready(e.port, e.nonce))
    && (e.expected.Some? ==> Expects(f, x, e.expected.value))
    && (e.resolved ==> Proved(f, x))
  }

  ghost predicate GoodNeg(f: Facts, n: Option<Neg>) {
    n.Some? && n.value.DirectProbe? ==>
      && (n.value.readyA.Some? ==> Announced(f, Lo, n.value.readyA.value))
      && (n.value.readyB.Some? ==> Announced(f, Hi, n.value.readyB.value))
      && (n.value.resultA == Some(true) ==> Proved(f, Lo))
      && (n.value.resultB == Some(true) ==> Proved(f, Hi))
  }

  /** A go tells what the other end announced; a switch-direct verdict stands on evidence at both ends. */
  ghost predicate GoodSent(f: Facts, m: Sent) {
    && (m.body.ProbeDirectGo? ==> Announced(f, m.to.Other(), Tells(m)))
    && (m.body == ProbeVerdict(SwitchDirect) ==> Proved(f, Lo) && Proved(f, Hi))
  }

  ghost predicate GoodLog(f: Facts) { forall m :: m in f.log ==> GoodSent(f, m) }

  ghost predicate GoodUps(f: Facts, x: Side, q: seq<Event>) { forall i :: 0 <= i < |q| ==> GoodUp(f, x, q[i]) }

  ghost predicate GoodDowns(f: Facts, x: Side, q: seq<Body>) { forall i :: 0 <= i < |q| ==> GoodDown(f, x, q[i]) }

  ghost predicate GoodAgent(f: Facts, x: Side, a: Agent) {
    forall id :: id in a.entries ==> GoodEntry(f, x, a.entries[id])
  }

  ghost predicate GoodEnd(y: Sys, x: Side) {
    var f := FactsOf(y);
    GoodUps(f, x, y.up.At(x)) && GoodDowns(f, x, y.down.At(x)) && GoodAgent(f, x, y.agents.At(x))
  }

  /** The sender of a datagram made its nonce and was told where to send it. */
  ghost predicate GoodFlight(f: Facts, d: Datagram) {
    Owned(f, d.nonce, d.from) && exists m ::
        GoTo(f, d.from, m) && m.body.peerIpv4 == d.ip && m.body.peerUdpPort == d.port
  }

  /** Announced nonces are the announcer's own, and only what was sent is received. */
  ghost predicate GoodPast(f: Facts) {
    && (forall r :: r in f.past.announced.lo ==> Owned(f, r.nonce, Lo))
    && (forall r :: r in f.past.announced.hi ==> Owned(f, r.nonce, Hi))
    && (forall d :: d in f.past.flying ==> GoodFlight(f, d))
    && f.past.got.lo <= f.past.flying && f.past.got.hi <= f.past.flying
  }

  ghost predicate Good(y: Sys) {
    && Sound(y.pair) && GoodPast(FactsOf(y)) && GoodNeg(FactsOf(y), y.pair.neg) && GoodLog(FactsOf(y))
    && GoodEnd(y, Lo) && GoodEnd(y, Hi)
  }

  // ----- knowledge only grows -----

  predicate Grows(f: Facts, f': Facts) {
    && (forall n :: n in f.past.issued ==> n in f'.past.issued && f'.past.issued[n] == f.past.issued[n])
    && f.past.announced.lo <= f'.past.announced.lo && f.past.announced.hi <= f'.past.announced.hi
    && f.past.flying <= f'.past.flying && f.past.got.lo <= f'.past.got.lo && f.past.got.hi <= f'.past.got.hi
    && f.log <= f'.log
  }

  lemma GenuineGrows(f: Facts, f': Facts, x: Side, d: Datagram)
    requires Grows(f, f') && Genuine(f, x, d)
    ensures Genuine(f', x, d)
  {
    var m, toSender :| Crossed(f, x, d, m, toSender);
    assert Crossed(f', x, d, m, toSender);
  }

  lemma ProvedGrows(f: Facts, f': Facts, x: Side)
    requires Grows(f, f')
    ensures Proved(f, x) ==> Proved(f', x)
  {
    if Proved(f, x) {
      var d :| Genuine(f, x, d);
      GenuineGrows(f, f', x, d);
    }
  }

  lemma ExpectsGrows(f: Facts, f': Facts, x: Side, nonce: string)
    requires Grows(f, f')
    ensures Expects(f, x, nonce) ==> Expects(f', x, nonce)
  {
    if Expects(f, x, nonce) {
      var m :| GoTo(f, x, m) && m.body.peerNonce == nonce;
      assert GoTo(f', x, m);
    }
  }

  lemma FlightGrows(f: Facts, f': Facts, d: Datagram)
    requires Grows(f, f') && GoodFlight(f, d)
    ensures GoodFlight(f', d)
  {
    var m :| GoTo(f, d.from, m) && m.body.peerIpv4 == d.ip && m.body.peerUdpPort == d.port;
    assert GoTo(f', d.from, m);
  }

  lemma EntryGrows(f: Facts, f': Facts, x: Side, e: Entry)
    requires Grows(f, f') && GoodEntry(f, x, e)
    ensures GoodEntry(f', x, e)
  {
    hide Proved, Expects;
    ProvedGrows(f, f', x);
    if e.expected.Some? { ExpectsGrows(f, f', x, e.expected.value); }
  }

  lemma EndGrows(y: Sys, f': Facts, x: Side)
    requires GoodEnd(y, x) && Grows(FactsOf(y), f')
    ensures GoodUps(f', x, y.up.At(x)) && GoodDowns(f', x, y.down.At(x)) && GoodAgent(f', x, y.agents.At(x))
  {
    hide Proved, Expects, GoodEntry;
    ProvedGrows(FactsOf(y), f', x);
    forall id | id in y.agents.At(x).entries ensures GoodEntry(f', x, y.agents.At(x).entries[id]) {
      EntryGrows(FactsOf(y), f', x, y.agents.At(x).entries[id]);
    }
  }

  /** New knowledge and an unchanged pair keep everything good. */
  lemma GoodGrows(y: Sys, k': Past)
    requires Good(y) && Grows(FactsOf(y), Facts(k', y.pair.log)) && GoodPast(Facts(k', y.pair.log))
    ensures Good(y.(past := k'))
  {
    hide Proved, GoodAgent, GoodPast, GoodUps, GoodDowns, Sound;
    var f, f' := FactsOf(y), Facts(k', y.pair.log);
    ProvedGrows(f, f', Lo);
    ProvedGrows(f, f', Hi);
    EndGrows(y, f', Lo);
    EndGrows(y, f', Hi);
  }

  // ----- what the server passes on -----

  /** The ready message of end x after the step: kept, or the one just received. */
  predicate ReadyFrom(s: PairState, t: Timed, x: Side, r: Ready) {
    || t.ev == DirectReady(x, r)
    || (s.neg.Some? && s.neg.value.DirectProbe?
        && (if x.Lo? then s.neg.value.readyA else s.neg.value.readyB) == Some(r))
  }

  predicate ResultFrom(s: PairState, t: Timed, x: Side) {
    || t.ev == DirectResult(x, true)
    || (s.neg.Some? && s.neg.value.DirectProbe?
        && (if x.Lo? then s.neg.value.resultA else s.neg.value.resultB) == Some(true))
  }

  predicate NegIsFrom(s: PairState, t: Timed, n: Option<Neg>) {
    n.Some? && n.value.DirectProbe? ==>
      && (n.value.readyA.Some? ==> ReadyFrom(s, t, Lo, n.value.readyA.value))
      && (n.value.readyB.Some? ==> ReadyFrom(s, t, Hi, n.value.readyB.value))
      && (n.value.resultA == Some(true) ==> ResultFrom(s, t, Lo))
      && (n.value.resultB == Some(true) ==> ResultFrom(s, t, Hi))
  }

  lemma NegFromReady(c: Config, s: PairState, t: Timed)
    requires t.ev.DirectReady?
    ensures NegIsFrom(s, t, Step(c, s, t).neg)
  {
  }

  lemma NegFromResult(c: Config, s: PairState, t: Timed)
    requires t.ev.DirectResult?
    ensures NegIsFrom(s, t, Step(c, s, t).neg)
  {
  }

  lemma NegFrom(c: Config, s: PairState, t: Timed)
    ensures NegIsFrom(s, t, Step(c, s, t).neg)
  {
    if t.ev.DirectReady? {
      NegFromReady(c, s, t);
    } else if t.ev.DirectResult? {
      NegFromResult(c, s, t);
    }
  }

  predicate GoFrom(s: PairState, t: Timed, m: Sent) {
    m.body.ProbeDirectGo? ==>
      && ReadyFrom(s, t, m.to.Other(), Ready(m.body.peerUdpPort, m.body.peerNonce))
      && InfoOf(t.env, m.to.Other()).Some? && m.body.peerIpv4 == InfoOf(t.env, m.to.Other()).value.publicIp
  }

  /** The nonce and port an end is told are those the other end announced, the address is the other's. */
  lemma GosFrom(c: Config, s: PairState, t: Timed, i: nat)
    requires Sound(s) && i < |Added(s, Step(c, s, t))|
    ensures GoFrom(s, t, Added(s, Step(c, s, t))[i])
  {
    StepMakesMove(c, s, t);
    var s' := Step(c, s, t);
    var m := MoveOf(s, s', t);
    MoveAdds(s, s', m);
    if m.Gos? {
      OnlyReadyGoes(c, s, t);
      GosOfReady(c, s, t);
    }
  }

  lemma OnlyReadyGoes(c: Config, s: PairState, t: Timed)
    requires Sound(s) && MoveOf(s, Step(c, s, t), t).Gos?
    ensures t.ev.DirectReady?
  {
  }

  lemma GosOfReady(c: Config, s: PairState, t: Timed)
    requires Sound(s) && t.ev.DirectReady?
    ensures forall i :: 0 <= i < |Added(s, Step(c, s, t))| ==> GoFrom(s, t, Added(s, Step(c, s, t))[i])
  {
  }

  lemma MoveAdds(s: PairState, s': PairState, m: Move)
    requires Makes(s, s', m)
    ensures s.log <= s'.log
    ensures !m.Gos? ==> forall i :: 0 <= i < |Added(s, s')| ==> !Added(s, s')[i].body.ProbeDirectGo?
  {
    hide Makes, Added;
    AddedByMove(s, s', m);
  }

  /** A switch-direct verdict needs a success from either end. */
  lemma DirectVerdictFrom(c: Config, s: PairState, t: Timed)
    requires Sound(s) && Decides(s, Step(c, s, t), SwitchDirect)
    ensures ResultFrom(s, t, Lo) && ResultFrom(s, t, Hi)
  {
    StepMakesMove(c, s, t);
    VerdictEndsSession(s, Step(c, s, t), MoveOf(s, Step(c, s, t), t), SwitchDirect);
    BothSucceeded(c, s, t);
  }

  lemma BothSucceeded(c: Config, s: PairState, t: Timed)
    requires Sound(s) && MoveOf(s, Step(c, s, t), t) == Ends(Verdict(SwitchDirect))
    ensures ResultFrom(s, t, Lo) && ResultFrom(s, t, Hi)
  {
  }

  // ----- every act keeps the invariant -----

  /** Only delivered messages of the log are under way. */
  lemma {:induction false} DeliveredIsSent(log: seq<Sent>, x: Side)
    ensures forall i :: 0 <= i < |Delivered(log, x)| ==> Sent(x, Delivered(log, x)[i], true) in log
  {
    if log != [] {
      DeliveredIsSent(log[..|log| - 1], x);
    }
  }

  lemma DownGood(y: Sys, t: Timed, c: Config, x: Side)
    requires Good(y) && y.pair.log <= Step(c, y.pair, t).log
    ensures GoodDowns(FactsOf(ServerMoves(c, y, t)), x, ServerMoves(c, y, t).down.At(x))
  {
    hide Step, Sound, GoodAgent, GoodUps, GoodNeg, GoodLog, GoodPast;
    DeliveredIsSent(Added(y.pair, Step(c, y.pair, t)), x);
  }

  lemma NegGood(c: Config, y: Sys, t: Timed)
    requires Good(y) && (FromAgent(t.ev) ==> GoodUp(FactsOf(y), t.ev.from, t.ev))
    ensures GoodNeg(FactsOf(y), Step(c, y.pair, t).neg)
  {
    hide Step;
    NegFrom(c, y.pair, t);
  }

  /** What a step adds to the log is good already by what was known before. */
  lemma AddedGood(c: Config, y: Sys, t: Timed, m: Sent)
    requires Good(y) && (FromAgent(t.ev) ==> GoodUp(FactsOf(y), t.ev.from, t.ev))
    requires m in Added(y.pair, Step(c, y.pair, t))
    ensures GoodSent(FactsOf(y), m)
  {
    hide Step, Added, Proved;
    var added := Added(y.pair, Step(c, y.pair, t));
    var i :| 0 <= i < |added| && added[i] == m;
    GosFrom(c, y.pair, t, i);
    if m.body == ProbeVerdict(SwitchDirect) {
      assert Decides(y.pair, Step(c, y.pair, t), SwitchDirect);
      DirectVerdictFrom(c, y.pair, t);
    }
  }

  lemma LogExtends(c: Config, s: PairState, t: Timed)
    requires Sound(s)
    ensures s.log <= Step(c, s, t).log && Step(c, s, t).log == s.log + Added(s, Step(c, s, t))
  {
    hide Step, Makes, MoveOf;
    StepMakesMove(c, s, t);
    MoveAdds(s, Step(c, s, t), MoveOf(s, Step(c, s, t), t));
  }

  lemma SentGrows(f: Facts, f': Facts, m: Sent)
    requires Grows(f, f') && GoodSent(f, m)
    ensures GoodSent(f', m)
  {
    hide Proved;
    ProvedGrows(f, f', Lo);
    ProvedGrows(f, f', Hi);
  }

  lemma LogGood(c: Config, y: Sys, t: Timed)
    requires Good(y) && (FromAgent(t.ev) ==> GoodUp(FactsOf(y), t.ev.from, t.ev))
    ensures GoodLog(FactsOf(ServerMoves(c, y, t)))
  {
    hide Step, Added, GoodSent, GoodEnd, GoodNeg, GoodPast;
    LogExtends(c, y.pair, t);
    var f, f' := FactsOf(y), FactsOf(ServerMoves(c, y, t));
    forall m | m in f'.log ensures GoodSent(f', m) {
      if m !in f.log { AddedGood(c, y, t, m); }
      SentGrows(f, f', m);
    }
  }

  lemma NegGrows(f: Facts, f': Facts, n: Option<Neg>)
    requires Grows(f, f') && GoodNeg(f, n)
    ensures GoodNeg(f', n)
  {
    hide Proved;
    ProvedGrows(f, f', Lo);
    ProvedGrows(f, f', Hi);
  }

  lemma PastWithMoreLog(f: Facts, f': Facts)
    requires GoodPast(f) && f'.past == f.past && f.log <= f'.log
    ensures GoodPast(f')
  {
    forall d | d in f'.past.flying ensures GoodFlight(f', d) {
      FlightGrows(f, f', d);
    }
  }

  lemma ServerKeepsGood(c: Config, y: Sys, t: Timed)
    requires Good(y) && (FromAgent(t.ev) ==> GoodUp(FactsOf(y), t.ev.from, t.ev))
    ensures Good(ServerMoves(c, y, t))
  {
    var f, f' := FactsOf(y), FactsOf(ServerMoves(c, y, t));
    LogExtends(c, y.pair, t);
    assert Grows(f, f');
    SoundStep(c, y.pair, t);
    NegGood(c, y, t);
    hide Step, Added, Sound, GoodNeg, GoodPast, GoodDowns, GoodAgent, GoodUp, Grows;
    NegGrows(f, f', Step(c, y.pair, t).neg);
    LogGood(c, y, t);
    hide GoodLog;
    PastWithMoreLog(f, f');
    EndGrows(y, f', Lo);
    EndGrows(y, f', Hi);
    DownGood(y, t, c, Lo);
    DownGood(y, t, c, Hi);
  }

  lemma IssueGood(f: Facts, x: Side, w: World, ready: bool)
    requires GoodPast(f) && w.nonce !in f.past.issued
    ensures var f' := f.(past := if ready then Issue(f.past, x, w) else f.past.(issued := f.past.issued[w.nonce := x]));
            && Grows(f, f') && GoodPast(f')
            && (ready && w.bindOk ==> Announced(f', x, Ready(w.port, w.nonce)))
  {
    var f' := f.(past := if ready then Issue(f.past, x, w) else f.past.(issued := f.past.issued[w.nonce := x]));
    forall d | d in f'.past.flying ensures GoodFlight(f', d) {
      FlightGrows(f, f', d);
    }
  }

  lemma SendGood(f: Facts, d: Datagram, m: Sent)
    requires GoodPast(f) && Owned(f, d.nonce, d.from)
    requires GoTo(f, d.from, m) && m.body.peerIpv4 == d.ip && m.body.peerUdpPort == d.port
    ensures var f' := f.(past := f.past.(flying := f.past.flying + {d})); Grows(f, f') && GoodPast(f')
  {
    var f' := f.(past := f.past.(flying := f.past.flying + {d}));
    assert GoTo(f', d.from, m);
    forall e | e in f'.past.flying ensures GoodFlight(f', e) {
      if e != d {
        FlightGrows(f, f', e);
      }
    }
  }

  /** Closing, freezing and switching leave the entries' nonces and marks alone; a go sets what to expect. */
  lemma MessageKeepsEntries(f: Facts, x: Side, a: Agent, body: Body, w: World)
    requires GoodAgent(f, x, a) && !body.ProbeDirectStart? && GoodDown(f, x, body)
    ensures GoodAgent(f, x, OnMessage(a, body, w))
  {
    hide Proved, Announced;
    if body.ProbeDirectGo? {
      assert GoTo(f, x, Sent(x, body, true));
      assert Expects(f, x, body.peerNonce);
    }
    hide Expects;
  }

  lemma StartGood(f: Facts, x: Side, a: Agent, w: World)
    requires GoodAgent(f, x, a) && (w.bindOk ==> Announced(f, x, Ready(w.port, w.nonce)))
    ensures GoodAgent(f, x, OnMessage(a, ProbeDirectStart, w))
    ensures GoodUps(f, x, Reply(a, x, ProbeDirectStart, w))
  {
    hide Proved, Announced, Expects;
  }

  lemma OtherReplyGood(f: Facts, x: Side, a: Agent, body: Body, w: World)
    requires !body.ProbeDirectStart?
    ensures GoodUps(f, x, Reply(a, x, body, w))
  {
  }

  /** What the agent's step adds to the past is good. */
  lemma PastGood(y: Sys, x: Side, w: World)
    requires Good(y) && Enabled(y, DeliverDown(x, w))
    ensures var f' := FactsOf(AgentMoves(y, x, w));
            && Grows(FactsOf(y), f') && GoodPast(f')
            && (y.down.At(x)[0].ProbeDirectStart? && w.bindOk ==> Announced(f', x, Ready(w.port, w.nonce)))
  {
    hide Sound, OnMessage, Reply, GoodUp, Proved, GoodPast, Grows;
    var f := FactsOf(y);
    var a, body := y.agents.At(x), y.down.At(x)[0];
    assert GoodDown(f, x, body);
    GrowsItself(f);
    if body.ProbeDirectGo? && a.slot.Some? && a.slot.value in a.entries {
      var e := a.entries[a.slot.value];
      assert GoodEntry(f, x, e);
      OwnNonce(f, x, Ready(e.port, e.nonce));
      SendGood(f, Datagram(x, body.peerIpv4, body.peerUdpPort, e.nonce), Sent(x, body, true));
    } else if body.ProbeDirectStart? || body.ProbeRelayServe? {
      IssueGood(f, x, w, body.ProbeDirectStart?);
    }
  }

  lemma GrowsItself(f: Facts)
    ensures Grows(f, f)
  {
  }

  lemma OwnNonce(f: Facts, x: Side, r: Ready)
    requires GoodPast(f) && Announced(f, x, r)
    ensures Owned(f, r.nonce, x)
  {
  }

  lemma AgentKeepsGood(c: Config, y: Sys, x: Side, w: World)
    requires Good(y) && Enabled(y, DeliverDown(x, w))
    ensures Good(AgentMoves(y, x, w))
  {
    hide Sound, OnMessage, Reply, GoodUp, Announced, Proved, GoodPast, GoodNeg, GoodLog, Grows, GoTo;
    var y' := AgentMoves(y, x, w);
    var a, body := y.agents.At(x), y.down.At(x)[0];
    PastGood(y, x, w);
    GoodGrows(y, y'.past);
    var f' := FactsOf(y');
    assert GoodDown(f', x, body);
    if body.ProbeDirectStart? {
      StartGood(f', x, a, w);
    } else {
      MessageKeepsEntries(f', x, a, body, w);
      OtherReplyGood(f', x, a, body, w);
    }
  }

  /** A received datagram with the expected nonce is evidence: nonce and port have crossed on the server. */
  lemma ArrivalIsGenuine(f: Facts, x: Side, e: Entry, d: Datagram)
    requires GoodPast(f) && GoodLog(f) && GoodEntry(f, x, e)
    requires d in f.past.got.At(x) && e.expected == Some(d.nonce) && e.port == d.port
    ensures Genuine(f, x, d)
  {
    hide Proved;
    var m :| GoTo(f, x, m) && m.body.peerNonce == d.nonce;
    assert GoodSent(f, m);
    OwnNonce(f, x.Other(), Tells(m));
    assert GoodFlight(f, d);
    var toSender :| GoTo(f, d.from, toSender) && toSender.body.peerIpv4 == d.ip && toSender.body.peerUdpPort == d.port;
    assert GoodSent(f, toSender);
    assert Crossed(f, x, d, m, toSender);
  }

  lemma NetworkKeepsGood(c: Config, y: Sys, x: Side, id: nat, d: Datagram)
    requires Good(y) && Enabled(y, Network(x, id, d))
    ensures Good(Next(c, y, Network(x, id, d)))
  {
    hide Sound, GoodNeg, GoodLog, GoodUps, GoodDowns, GoodEntry;
    var y' := Next(c, y, Network(x, id, d));
    ReceiptGood(FactsOf(y), x, d);
    GoodGrows(y, y'.past);
    var e := y.agents.At(x).entries[id];
    assert GoodEntry(FactsOf(y'), x, e);
    if e.open && e.expected == Some(d.nonce) {
      ArrivalIsGenuine(FactsOf(y'), x, e, d);
      MarkGood(FactsOf(y'), x, e);
    }
  }

  lemma ReceiptGood(f: Facts, x: Side, d: Datagram)
    requires GoodPast(f) && d in f.past.flying
    ensures var f' := f.(past := Receive(f.past, x, d)); Grows(f, f') && GoodPast(f') && Grows(f, f)
  {
    var f' := f.(past := Receive(f.past, x, d));
    forall e | e in f'.past.flying ensures GoodFlight(f', e) {
      FlightGrows(f, f', e);
    }
  }

  lemma MarkGood(f: Facts, x: Side, e: Entry)
    requires GoodEntry(f, x, e) && Proved(f, x)
    ensures GoodEntry(f, x, e.(resolved := true))
  {
  }

  lemma LoopKeepsGood(c: Config, y: Sys, x: Side, id: nat, ok: bool)
    requires Good(y) && Enabled(y, LoopEnds(x, id, ok))
    ensures Good(Next(c, y, LoopEnds(x, id, ok)))
  {
    hide Sound, GoodNeg, GoodLog, GoodPast, Proved, Expects, Announced;
    assert GoodEntry(FactsOf(y), x, y.agents.At(x).entries[id]);
  }

  lemma ActKeepsGood(c: Config, y: Sys, a: Act)
    requires Good(y) && Enabled(y, a)
    ensures Good(Next(c, y, a))
  {
    hide Sound, ServerMoves, AgentMoves, GoodNeg, GoodLog, GoodPast, Proved, Expects, Announced;
    match a
    case ServerAct(t) => ServerKeepsGood(c, y, t);
    case DeliverUp(x, env) =>
      var y1 := y.(up := y.up.Put(x, y.up.At(x)[1..]));
      assert GoodUp(FactsOf(y), x, y.up.At(x)[0]);
      ServerKeepsGood(c, y1, Timed(env, y.up.At(x)[0]));
    case DeliverDown(x, w) => AgentKeepsGood(c, y, x, w);
    case Network(x, id, d) => NetworkKeepsGood(c, y, x, id, d);
    case LoopEnds(x, id, ok) => LoopKeepsGood(c, y, x, id, ok);
    case AgentDisconnects(x) =>
    case CutUp(x) =>
    case Thaws(x) =>
  }

  lemma {:induction false} GoodRun(c: Config, acts: seq<Act>)
    requires Reachable(c, START, acts)
    ensures Good(After(c, START, acts))
    decreases |acts|
  {
    if acts != [] {
      GoodRun(c, acts[..|acts| - 1]);
      hide Next, Good;
      ActKeepsGood(c, After(c, START, acts[..|acts| - 1]), acts[|acts| - 1]);
    }
  }

  /** Evidence for switch-direct: in every run of the server, the two agents and the network, once the server
      has sent such a verdict to either end, each end has received a datagram from the other with the nonce that
      the other announced and the server passed on to it, sent to the port that it announced and the server
      passed on to the other; whatever was lost, delayed, repeated, cut off or restarted on the way. */
  lemma {:induction false} SwitchDirectIsFounded(c: Config, acts: seq<Act>, m: Sent)
    requires Reachable(c, START, acts)
    requires m in After(c, START, acts).pair.log && m.body == ProbeVerdict(SwitchDirect)
    ensures var f := FactsOf(After(c, START, acts));
            && (exists d, go, back :: Crossed(f, Lo, d, go, back))
            && (exists d, go, back :: Crossed(f, Hi, d, go, back))
  {
    GoodRun(c, acts);
    var f := FactsOf(After(c, START, acts));
    hide Good, Reachable, After;
    VerdictProved(After(c, START, acts), m);
    var d :| Genuine(f, Lo, d);
    var e :| Genuine(f, Hi, e);
  }

  lemma VerdictProved(y: Sys, m: Sent)
    requires Good(y) && m in y.pair.log && m.body == ProbeVerdict(SwitchDirect)
    ensures Proved(FactsOf(y), Lo) && Proved(FactsOf(y), Hi)
  {
    assert GoodSent(FactsOf(y), m);
  }

  // ----- the evidence may be old -----

  /** The result of an earlier probe counts for the present one: with no ready message and no go, two late
      successes decide a negotiation for the direct path, because results name the peer and not the probe. */
  lemma LateResultsDecide(c: Config, s: PairState, e: Env)
    requires Sound(s) && s.neg.Some? && s.neg.value.DirectProbe? && s.neg.value.readyA.None? && s.neg.value.readyB.None?
    requires s.neg.value.resultA.None? && s.neg.value.resultB.None?
    ensures var s1 := Step(c, s, Timed(e, DirectResult(Lo, true)));
            Decides(s1, Step(c, s1, Timed(e, DirectResult(Hi, true))), SwitchDirect)
  {
    var s1 := Step(c, s, Timed(e, DirectResult(Lo, true)));
    var s2 := Step(c, s1, Timed(e, DirectResult(Hi, true)));
    assert s2.log == s1.log + [Sent(Lo, ProbeVerdict(SwitchDirect), s1.connLo),
                               Sent(Hi, ProbeVerdict(SwitchDirect), s1.connHi)];
    assert Added(s1, s2)[0].body == ProbeVerdict(SwitchDirect);
  }
}
