/** What the server found in its tables when it told an agent where to send, whom to trust, or to start a probe. */
module Guards {
  import opened Common
  import opened PairKeys
  import opened PairMachine
  import opened Negotiator
  import opened Sessions
  import opened Streaks
  import opened Backoffs
  import opened RelayEvidence
  import opened Openings
  import opened Readings
  import DirectEvidence

  // ----- one step of a call -----

  /** The step is of an event of the call, on the tables and the clock of the call. */
  lemma StepReads(h: seq<Input>, n: nat, k: nat, p: Pair)
    requires n < |h| && k < |TimedOf(h[n], p)|
    ensures k < |EventsOf(h[n], p)|
    ensures var t, i := TimedOf(h[n], p)[k], h[n];
            && t.ev == EventsOf(i, p)[k] && t.env.now == i.now
            && t.env.infoLo == (if p.lo in i.peers then Some(i.peers[p.lo].info) else None)
            && t.env.infoHi == (if p.hi in i.peers then Some(i.peers[p.hi].info) else None)
            && (t.env.relayLo <==> p.lo in i.peers && i.peers[p.lo].network in i.relayEnabled
                                   && i.relayEnabled[i.peers[p.lo].network])
            && (t.env.relayHi <==> p.hi in i.peers && i.peers[p.hi].network in i.relayEnabled
                                   && i.relayEnabled[i.peers[p.hi].network])
  {
  }

  lemma {:induction false} UpsertsAre(from: PeerId, reports: seq<HealthReport>, p: Pair)
    ensures forall i :: 0 <= i < |UpsertsFor(from, reports, p)| ==> UpsertsFor(from, reports, p)[i].Upsert?
  {
    if reports != [] { UpsertsAre(from, reports[..|reports| - 1], p); }
  }

  lemma {:induction false} CascadesAre(gone: seq<PeerId>, p: Pair)
    ensures forall i :: 0 <= i < |CascadesFor(gone, p)| ==> CascadesFor(gone, p)[i].Cascade?
  {
    if gone != [] { CascadesAre(gone[..|gone| - 1], p); }
  }

  /** Which call an event of the pair comes from, and from whom. */
  lemma EventIsOfCall(i: Input, p: Pair, k: nat)
    requires p.Proper() && k < |EventsOf(i, p)|
    ensures var ev := EventsOf(i, p)[k];
            && (ev.CheckDirect? ==> i.call.Swept?)
            && (ev.Report? || ev.RelayReady? || ev.RelayResult? || ev.DirectReady? || ev.DirectResult? ==>
                  i.call.Message? && i.call.from == (if ev.from.Lo? then p.lo else p.hi))
            && (ev.Report? ==> i.call.msg.HealthReportMsg?)
            && (ev.RelayReady? ==>
                  i.call.msg == RelayReadyMsg(if ev.from.Lo? then p.hi else p.lo, ev.meshIpv4, ev.tcpPort, ev.nonce))
            && (ev.DirectReady? ==> i.call.msg == DirectReadyMsg(if ev.from.Lo? then p.hi else p.lo, ev.ready))
  {
    hide Less, PairOf, UpsertsFor, ReportsFor, PurgesFor, CascadesFor;
    match i.call
    case Message(from, HealthReportMsg(reports)) =>
      UpsertsAre(from, reports, p);
      ReportsAreIdle(from, reports, p);
      ReportsComeFrom(from, reports, p);
    case Message(from, msg) => WhoReports(from, msg.other, p, if from == p.lo then Lo else Hi);
    case Reaped(gone, _) =>
      PurgesAreIdle(gone, p);
      CascadesAre(gone, p);
    case _ =>
  }

  lemma {:induction false} ReportsComeFrom(from: PeerId, reports: seq<HealthReport>, p: Pair)
    requires p.Proper()
    ensures forall k :: 0 <= k < |ReportsFor(from, reports, p)| ==>
              var ev := ReportsFor(from, reports, p)[k];
              && ev.Report? && from == (if ev.from.Lo? then p.lo else p.hi)
              && exists j :: 0 <= j < |reports| && reports[j].peerId == (if ev.from.Lo? then p.hi else p.lo)
                             && reports[j].mode == ev.mode && reports[j].rxAlive == ev.rxAlive
  {
    hide Less, PairOf;
    if reports != [] {
      var l := |reports| - 1;
      ReportsComeFrom(from, reports[..l], p);
      WhoReports(from, reports[l].peerId, p, if from == p.lo then Lo else Hi);
      PairOfEnds(p);
      forall k | 0 <= k < |ReportsFor(from, reports, p)|
        ensures var ev := ReportsFor(from, reports, p)[k];
                && ev.Report? && from == (if ev.from.Lo? then p.lo else p.hi)
                && exists j :: 0 <= j < |reports| && reports[j].peerId == (if ev.from.Lo? then p.hi else p.lo)
                               && reports[j].mode == ev.mode && reports[j].rxAlive == ev.rxAlive
      {
        var ev, sooner := ReportsFor(from, reports, p)[k], ReportsFor(from, reports[..l], p);
        if k < |sooner| {
          assert ev == sooner[k];
          var j :| 0 <= j < l && reports[..l][j].peerId == (if ev.from.Lo? then p.hi else p.lo)
                   && reports[..l][j].mode == ev.mode && reports[..l][j].rxAlive == ev.rxAlive;
          assert reports[j] == reports[..l][j];
        } else {
          assert reports[l].mode == ev.mode;
        }
      }
    }
  }

  // ----- addresses and keys -----

  /** The step of a call that pushed the message. */
  lemma PushedInStep(c: Config, h: seq<Input>, n: nat, p: Pair, m: Sent) returns (k: nat, s: PairState, t: Timed)
    requires n < |h| && m in PushedBy(c, h, n, p)
    ensures k < |TimedOf(h[n], p)| && t == TimedOf(h[n], p)[k] && s == Run(c, Upto(h, n, k, p)) && Sound(s)
    ensures m in Added(s, Step(c, s, t))
  {
    hide TimedOf, Run, Step;
    PushedMeans(c, h, n, p, m);
    k :| k < |TimedOf(h[n], p)| && m in StepAdds(c, h, n, k, p);
    s, t := Run(c, Upto(h, n, k, p)), TimedOf(h[n], p)[k];
    SoundRun(c, Upto(h, n, k, p));
  }

  lemma GoSays(c: Config, s: PairState, t: Timed, m: Sent)
    requires Sound(s) && m in Added(s, Step(c, s, t)) && m.body.ProbeDirectGo?
    ensures t.ev.DirectReady?
    ensures var info := if m.to.Lo? then t.env.infoHi else t.env.infoLo;
            info.Some? && m.body.peerIpv4 == info.value.publicIp
  {
    hide Step, Added;
    var i :| 0 <= i < |Added(s, Step(c, s, t))| && Added(s, Step(c, s, t))[i] == m;
    DirectEvidence.GosFrom(c, s, t, i);
    GoNeedsReady(c, s, t, m);
  }

  lemma GoNeedsReady(c: Config, s: PairState, t: Timed, m: Sent)
    requires Sound(s) && m in Added(s, Step(c, s, t)) && m.body.ProbeDirectGo?
    ensures t.ev.DirectReady?
  {
    hide Step, Added, Makes, MoveOf;
    StepMakesMove(c, s, t);
    DirectEvidence.MoveAdds(s, Step(c, s, t), MoveOf(s, Step(c, s, t), t));
    DirectEvidence.OnlyReadyGoes(c, s, t);
  }

  /** Every go tells its receiver the address that the table held for the other peer when the call that sent it came:
      the ready message of one of the two. */
  lemma GosNameTheOther(c: Config, h: seq<Input>, n: nat, m: Push)
    requires Pushes(c, h, n, m) && m.to != m.other && m.body.ProbeDirectGo?
    ensures var i := h[n];
            && m.other in i.peers && m.body.peerIpv4 == i.peers[m.other].info.publicIp
            && i.call.Message? && i.call.msg.DirectReadyMsg?
            && ((i.call.from == m.to && i.call.msg.other == m.other)
                || (i.call.from == m.other && i.call.msg.other == m.to))
  {
    hide TimedOf, Run, Step, PushedBy, PairOf, Less;
    var p := PairOf(m.to, m.other);
    PairOfSymmetric(m.to, m.other);
    PairHolds(m.to, m.other);
    PairOfEnds(p);
    var sent := Sent(SideOf(p, m.to), m.body, m.delivered);
    var k, s, t := PushedInStep(c, h, n, p, sent);
    GoSays(c, s, t, sent);
    StepReads(h, n, k, p);
    EventIsOfCall(h[n], p, k);
  }

  lemma CheckSays(c: Config, s: PairState, t: Timed, m: Sent)
    requires Sound(s) && m in Added(s, Step(c, s, t)) && m.body.ProbeRelayCheck?
    ensures t.ev.RelayReady? && t.ev.from == m.to.Other()
    ensures m.body.meshIpv4 == t.ev.meshIpv4 && m.body.tcpPort == t.ev.tcpPort && m.body.nonce == t.ev.nonce
    ensures t.env.infoLo.Some? && t.env.infoHi.Some?
    ensures m.body.clientPubkey == (if m.to.Lo? then t.env.infoLo else t.env.infoHi).value.pubkey
    ensures m.body.serverPubkey == (if m.to.Lo? then t.env.infoHi else t.env.infoLo).value.pubkey
  {
    hide Step, Added, Makes, MoveOf;
    StepMakesMove(c, s, t);
    ChecksAreMoves(s, Step(c, s, t), MoveOf(s, Step(c, s, t), t), m);
    OnlyReadyChecks(c, s, t);
    CheckOfReady(c, s, t, m);
  }

  /** Every check carries the keys that the table held for its receiver, as the client's, and for the other peer, as the
      server's, and repeats what the server's ready message announced in the call that sent it. */
  lemma ChecksCarryKeys(c: Config, h: seq<Input>, n: nat, m: Push)
    requires Pushes(c, h, n, m) && m.to != m.other && m.body.ProbeRelayCheck?
    ensures var i := h[n];
            && m.to in i.peers && m.body.clientPubkey == i.peers[m.to].info.pubkey
            && m.other in i.peers && m.body.serverPubkey == i.peers[m.other].info.pubkey
            && i.call == Message(m.other, RelayReadyMsg(m.to, m.body.meshIpv4, m.body.tcpPort, m.body.nonce))
  {
    hide TimedOf, Run, Step, PushedBy, PairOf, Less;
    var p := PairOf(m.to, m.other);
    PairOfSymmetric(m.to, m.other);
    PairHolds(m.to, m.other);
    PairOfEnds(p);
    var sent := Sent(SideOf(p, m.to), m.body, m.delivered);
    var k, s, t := PushedInStep(c, h, n, p, sent);
    CheckSays(c, s, t, sent);
    StepReads(h, n, k, p);
    EventIsOfCall(h[n], p, k);
  }

  /** So all of the outbox: each go and each check was sent by some call, on the table of that call. */
  lemma OutboxNamesTheOther(s: Server, m: Push)
    requires s.Valid() && m in s.outbox && m.to != m.other
    ensures m.body.ProbeDirectGo? ==>
              exists n: nat :: Pushes(s.config, s.history, n, m) && m.other in s.history[n].peers
                               && m.body.peerIpv4 == s.history[n].peers[m.other].info.publicIp
    ensures m.body.ProbeRelayCheck? ==>
              exists n: nat :: Pushes(s.config, s.history, n, m)
                               && m.to in s.history[n].peers && m.other in s.history[n].peers
                               && m.body.clientPubkey == s.history[n].peers[m.to].info.pubkey
                               && m.body.serverPubkey == s.history[n].peers[m.other].info.pubkey
  {
    hide Pushes, Server.Valid;
    OutboxIsPushed(s, m);
    var n: nat :| Pushes(s.config, s.history, n, m);
    if m.body.ProbeDirectGo? { GosNameTheOther(s.config, s.history, n, m); }
    if m.body.ProbeRelayCheck? { ChecksCarryKeys(s.config, s.history, n, m); }
  }

  // ----- openings -----

  /** The start of a direct probe is pushed exactly when one opens, that of a relay probe likewise. */
  lemma OpeningsArePushed(c: Config, s: PairState, t: Timed)
    requires Sound(s)
    ensures (exists m :: m in Added(s, Step(c, s, t)) && m.body.ProbeDirectStart?) <==> StartsDirect(s, Step(c, s, t))
    ensures (exists m :: m in Added(s, Step(c, s, t)) && m.body.ProbeRelayServe?) <==> StartsRelay(s, Step(c, s, t))
  {
    hide Step, Added, MoveOf;
    var s' := Step(c, s, t);
    var m := MoveOf(s, s', t);
    StepMakesMove(c, s, t);
    AddedByMove(s, s', m);
    MoveOpens(s, s', t, m);
    if StartsDirect(s, s') || StartsRelay(s, s') { assert MoveLog(s, m)[0] in Added(s, s'); }
  }

  lemma MoveOpens(s: PairState, s': PairState, t: Timed, m: Move)
    requires Fits(s.neg, s'.neg, m)
    ensures StartsDirect(s, s') ==> |MoveLog(s, m)| > 0 && MoveLog(s, m)[0].body.ProbeDirectStart?
    ensures StartsRelay(s, s') ==> |MoveLog(s, m)| > 0 && MoveLog(s, m)[0].body.ProbeRelayServe?
    ensures (exists a :: a in MoveLog(s, m) && a.body.ProbeDirectStart?) ==> StartsDirect(s, s')
    ensures (exists a :: a in MoveLog(s, m) && a.body.ProbeRelayServe?) ==> StartsRelay(s, s')
  {
  }

  /** The server tells an end of the pair to start a direct probe in the n-th call. */
  predicate StartsDirectIn(c: Config, h: seq<Input>, n: nat, p: Pair)
    requires n < |h|
  {
    exists m :: m in PushedBy(c, h, n, p) && m.body.ProbeDirectStart?
  }

  predicate ServesRelayIn(c: Config, h: seq<Input>, n: nat, p: Pair)
    requires n < |h|
  {
    exists m :: m in PushedBy(c, h, n, p) && m.body.ProbeRelayServe?
  }

  lemma StepOpens(c: Config, h: seq<Input>, n: nat, k: nat, p: Pair)
    requires n < |h| && k < |TimedOf(h[n], p)|
    ensures (exists m :: m in StepAdds(c, h, n, k, p) && m.body.ProbeDirectStart?) <==>
            StartsDirect(Run(c, Upto(h, n, k, p)), Run(c, Upto(h, n, k + 1, p)))
    ensures (exists m :: m in StepAdds(c, h, n, k, p) && m.body.ProbeRelayServe?) <==>
            StartsRelay(Run(c, Upto(h, n, k, p)), Run(c, Upto(h, n, k + 1, p)))
  {
    hide TimedOf, Run, Step, Upto, StartsDirect, StartsRelay;
    SoundRun(c, Upto(h, n, k, p));
    UptoNext(c, h, n, k, p);
    OpeningsArePushed(c, Run(c, Upto(h, n, k, p)), TimedOf(h[n], p)[k]);
  }

  /** A start goes out in a call exactly if one of its steps opens a probe of that kind. */
  lemma OpensInStep(c: Config, h: seq<Input>, n: nat, p: Pair)
    requires n < |h|
    ensures StartsDirectIn(c, h, n, p) <==>
            exists k: nat ::
              k < |TimedOf(h[n], p)| && StartsDirect(Run(c, Upto(h, n, k, p)), Run(c, Upto(h, n, k + 1, p)))
    ensures ServesRelayIn(c, h, n, p) <==>
            exists k: nat ::
              k < |TimedOf(h[n], p)| && StartsRelay(Run(c, Upto(h, n, k, p)), Run(c, Upto(h, n, k + 1, p)))
  {
    hide TimedOf, Run, Step, PushedBy, Upto, StepAdds, StartsDirect, StartsRelay;
    if m :| m in PushedBy(c, h, n, p) && m.body.ProbeDirectStart? {
      PushedMeans(c, h, n, p, m);
      var k: nat :| k < |TimedOf(h[n], p)| && m in StepAdds(c, h, n, k, p);
      StepOpens(c, h, n, k, p);
    }
    if m :| m in PushedBy(c, h, n, p) && m.body.ProbeRelayServe? {
      PushedMeans(c, h, n, p, m);
      var k: nat :| k < |TimedOf(h[n], p)| && m in StepAdds(c, h, n, k, p);
      StepOpens(c, h, n, k, p);
    }
    forall k: nat | k < |TimedOf(h[n], p)|
      ensures StartsDirect(Run(c, Upto(h, n, k, p)), Run(c, Upto(h, n, k + 1, p))) ==> StartsDirectIn(c, h, n, p)
      ensures StartsRelay(Run(c, Upto(h, n, k, p)), Run(c, Upto(h, n, k + 1, p))) ==> ServesRelayIn(c, h, n, p)
    {
      StepOpens(c, h, n, k, p);
      if m :| m in StepAdds(c, h, n, k, p) && m.body.ProbeDirectStart? { PushedMeans(c, h, n, p, m); }
      if m :| m in StepAdds(c, h, n, k, p) && m.body.ProbeRelayServe? { PushedMeans(c, h, n, p, m); }
    }
  }

  // ----- when a direct probe opens -----

  /** The sweep's first half ends a negotiation older than 30 s, and changes nothing that a probe is due by. */
  lemma SweepFirst(c: Config, tr: seq<Timed>, t: Timed)
    requires t.ev.SweepStale?
    ensures var n, n' := Run(c, tr).neg, Run(c, tr + [t]).neg;
            n' == if n.Some? && t.env.now - n.value.startedAt > 30_000 then None else n
    ensures HasRecord(tr + [t]) == HasRecord(tr) && LastProbe(c, tr + [t]) == LastProbe(c, tr)
    ensures Failures(c, tr + [t]) == Failures(c, tr)
  {
    assert (tr + [t])[..|tr + [t]| - 1] == tr;
  }

  lemma SweepIs(h: seq<Input>, n: nat, p: Pair)
    requires n < |h| && h[n].call.Swept?
    ensures |TimedOf(h[n], p)| == 2 && TimedOf(h[n], p)[0].ev == SweepStale && TimedOf(h[n], p)[1].ev == CheckDirect
    ensures Upto(h, n, 0, p) == Project(h[..n], p)
    ensures Upto(h, n, 1, p) == Project(h[..n], p) + [TimedOf(h[n], p)[0]]
  {
  }

  /** Whether a direct probe is due for the pair at this call, read off the calls before it and the tables it found. */
  predicate DirectDueAt(c: Config, past: seq<Input>, i: Input, p: Pair) {
    var tr := Project(past, p);
    && StoredMode(past, p.lo, p.hi) == Some(RelayPath) && StoredMode(past, p.hi, p.lo) == Some(RelayPath)
    && StoredForce(past, p.lo, p.hi).None? && StoredForce(past, p.hi, p.lo).None?
    && Online(past, p.lo) && Online(past, p.hi)
    && HasRecord(tr) && i.now - LastProbe(c, tr) >= Ladder(c.init, Failures(c, tr))
    && p.lo in i.peers && i.peers[p.lo].network in i.relayEnabled && i.relayEnabled[i.peers[p.lo].network]
  }

  lemma DueAfterSweep(c: Config, h: seq<Input>, n: nat, p: Pair)
    requires n < |h| && h[n].call.Swept? && p.Proper()
    ensures DirectIsDue(c, Upto(h, n, 1, p), TimedOf(h[n], p)[1].env) <==> DirectDueAt(c, h[..n], h[n], p)
  {
    hide TimedOf, Run, StoredMode, StoredForce, Online, LastMode, LastForce, Up, HasRecord, LastProbe, Ladder, Failures,
         Project, Upto, Less;
    var past := h[..n];
    SweepIs(h, n, p);
    StepReads(h, n, 0, p);
    StepReads(h, n, 1, p);
    SweepFirst(c, Project(past, p), TimedOf(h[n], p)[0]);
    HistoriesAgree(past, p, Lo);
    HistoriesAgree(past, p, Hi);
    OneEvent(Project(past, p), TimedOf(h[n], p)[0], Lo);
    OneEvent(Project(past, p), TimedOf(h[n], p)[0], Hi);
    NoForceWithoutRow(Project(past, p), Lo);
    NoForceWithoutRow(Project(past, p), Hi);
  }

  /** A server tells a pair to start a direct probe if and only if the call is the sweep, the pair has no negotiation
      that is 30 s old or younger, both sides' last stored reports say relay with no command on either, both are online,
      the record is there and its backoff over, and the network of the first peer has its relay enabled. */
  lemma {:induction false} DirectStartsIff(c: Config, h: seq<Input>, n: nat, p: Pair)
    requires n < |h| && p.Proper()
    ensures StartsDirectIn(c, h, n, p) <==>
            && h[n].call.Swept?
            && (var neg := Run(c, Project(h[..n], p)).neg; neg.None? || h[n].now - neg.value.startedAt > 30_000)
            && DirectDueAt(c, h[..n], h[n], p)
  {
    hide TimedOf, Run, Step, Project, Upto, DirectDueAt, DirectIsDue, StartsDirectIn, Less, StartsDirect;
    OpensInStep(c, h, n, p);
    if StartsDirectIn(c, h, n, p) {
      var k: nat :| k < |TimedOf(h[n], p)| && StartsDirect(Run(c, Upto(h, n, k, p)), Run(c, Upto(h, n, k + 1, p)));
      StepStartsIff(c, h, n, k, p);
    }
    if h[n].call.Swept? {
      SweepIs(h, n, p);
      StepStartsIff(c, h, n, 0, p);
      StepStartsIff(c, h, n, 1, p);
      StepReads(h, n, 0, p);
      SweepFirst(c, Project(h[..n], p), TimedOf(h[n], p)[0]);
      DueAfterSweep(c, h, n, p);
    }
  }

  lemma StepStartsIff(c: Config, h: seq<Input>, n: nat, k: nat, p: Pair)
    requires n < |h| && k < |TimedOf(h[n], p)| && p.Proper()
    ensures StartsDirect(Run(c, Upto(h, n, k, p)), Run(c, Upto(h, n, k + 1, p))) <==>
            && TimedOf(h[n], p)[k].ev.CheckDirect? && Run(c, Upto(h, n, k, p)).neg.None?
            && DirectIsDue(c, Upto(h, n, k, p), TimedOf(h[n], p)[k].env)
    ensures TimedOf(h[n], p)[k].ev.CheckDirect? ==> h[n].call.Swept?
  {
    hide TimedOf, Run, Step, Project, Upto, DirectIsDue, Less, StartsDirect;
    UptoNext(c, h, n, k, p);
    DirectOpensIff(c, Upto(h, n, k, p), TimedOf(h[n], p)[k]);
    StepReads(h, n, k, p);
    EventIsOfCall(h[n], p, k);
  }

  // ----- when a relay probe opens -----

  lemma {:induction false} SocketsInBatch(h: seq<Input>, n: nat, k: nat, p: Pair, x: Side)
    requires n < |h| && k <= |TimedOf(h[n], p)| && h[n].call.Message? && p.Proper()
    ensures Up(Upto(h, n, k, p), x) <==> Online(h[..n], End(p, x))
    decreases k
  {
    hide TimedOf, Project, LastMode, LastForce, Up, Online, Less;
    if k == 0 {
      assert Upto(h, n, 0, p) == Project(h[..n], p);
      HistoriesAgree(h[..n], p, x);
    } else {
      SocketsInBatch(h, n, k - 1, p, x);
      assert Upto(h, n, k, p) == Upto(h, n, k - 1, p) + [TimedOf(h[n], p)[k - 1]];
      OneEvent(Upto(h, n, k - 1, p), TimedOf(h[n], p)[k - 1], x);
      StepReads(h, n, k - 1, p);
      MessagesAreNoSockets(h[n], p, k - 1);
    }
  }

  lemma MessagesAreNoSockets(i: Input, p: Pair, k: nat)
    requires i.call.Message? && k < |EventsOf(i, p)|
    ensures var ev := EventsOf(i, p)[k]; !ev.Connect? && !ev.Close? && !ev.Restart?
  {
    hide Less, PairOf, UpsertsFor, ReportsFor;
    if i.call.msg.HealthReportMsg? {
      UpsertsAre(i.call.from, i.call.msg.reports, p);
      ReportsAreIdle(i.call.from, i.call.msg.reports, p);
    }
  }

  /** The step tips the scales of a pair with no active negotiation, and no command is remembered or shown. */
  predicate TipsAt(c: Config, tr: seq<Timed>, t: Timed) {
    Run(c, tr).neg.None? && Tips(c, tr, t) && Remembered(c, tr).None? && Shown(tr, t.env).None?
  }

  lemma StepServesIff(c: Config, h: seq<Input>, n: nat, k: nat, p: Pair)
    requires n < |h| && k < |TimedOf(h[n], p)| && p.Proper()
    ensures StartsRelay(Run(c, Upto(h, n, k, p)), Run(c, Upto(h, n, k + 1, p))) <==>
            && h[n].call.Message? && h[n].call.msg.HealthReportMsg? && p.Has(h[n].call.from)
            && (var x, i := h[n].call.from, h[n];
                x in i.peers && i.peers[x].network in i.relayEnabled && i.relayEnabled[i.peers[x].network])
            && Online(h[..n], p.lo) && Online(h[..n], p.hi)
            && TipsAt(c, Upto(h, n, k, p), TimedOf(h[n], p)[k])
  {
    hide TimedOf, Run, Step, Project, Upto, Up, Online, Tips, Remembered, Shown, Less, StartsRelay;
    var tr, t := Upto(h, n, k, p), TimedOf(h[n], p)[k];
    UptoNext(c, h, n, k, p);
    RelayOpensIff(c, tr, t);
    OnlyReportsTip(c, tr, t);
    StepReads(h, n, k, p);
    EventIsOfCall(h[n], p, k);
    if h[n].call.Message? {
      SocketsInBatch(h, n, k, p, Lo);
      SocketsInBatch(h, n, k, p, Hi);
    }
  }

  /** A server tells an end of a pair to serve a relay probe if and only if the call is a health report of one of the
      two, the relay is enabled for the network of the reporter as the tables have it, both are online, and one of its
      reports tips the scales. */
  lemma {:induction false} RelayServesIff(c: Config, h: seq<Input>, n: nat, p: Pair)
    requires n < |h| && p.Proper()
    ensures ServesRelayIn(c, h, n, p) <==>
            && h[n].call.Message? && h[n].call.msg.HealthReportMsg? && p.Has(h[n].call.from)
            && (var x, i := h[n].call.from, h[n];
                x in i.peers && i.peers[x].network in i.relayEnabled && i.relayEnabled[i.peers[x].network])
            && Online(h[..n], p.lo) && Online(h[..n], p.hi)
            && exists k: nat :: k < |TimedOf(h[n], p)| && TipsAt(c, Upto(h, n, k, p), TimedOf(h[n], p)[k])
  {
    hide TimedOf, Run, Step, Project, Upto, Online, Less, StartsRelay, ServesRelayIn, TipsAt;
    OpensInStep(c, h, n, p);
    if ServesRelayIn(c, h, n, p) {
      var k: nat :| k < |TimedOf(h[n], p)| && StartsRelay(Run(c, Upto(h, n, k, p)), Run(c, Upto(h, n, k + 1, p)));
      StepServesIff(c, h, n, k, p);
    }
    if k: nat :| k < |TimedOf(h[n], p)| && TipsAt(c, Upto(h, n, k, p), TimedOf(h[n], p)[k]) {
      StepServesIff(c, h, n, k, p);
    }
  }

  /** A report that tips the scales says that its path is direct and dead, and is one of those in the call. */
  lemma TippingReport(c: Config, h: seq<Input>, n: nat, k: nat, p: Pair)
    requires n < |h| && k < |TimedOf(h[n], p)| && p.Proper() && Tips(c, Upto(h, n, k, p), TimedOf(h[n], p)[k])
    ensures h[n].call.Message? && h[n].call.msg.HealthReportMsg?
    ensures exists j :: 0 <= j < |h[n].call.msg.reports|
                        && h[n].call.msg.reports[j].mode.DirectPath? && !h[n].call.msg.reports[j].rxAlive
                        && p.Has(h[n].call.msg.reports[j].peerId) && h[n].call.msg.reports[j].peerId != h[n].call.from
  {
    hide TimedOf, Project, Less, Upto, PairOf;
    var t := TimedOf(h[n], p)[k];
    StepReads(h, n, k, p);
    EventIsOfCall(h[n], p, k);
    ReportOfCall(h[n], p, k);
    TipsAreDead(c, Upto(h, n, k, p), t);
    PairOfEnds(p);
  }

  lemma TipsAreDead(c: Config, tr: seq<Timed>, t: Timed)
    requires Tips(c, tr, t)
    ensures t.ev.Report? && t.ev.mode.DirectPath? && !t.ev.rxAlive
  {
    hide Outcomes;
    HistoryNext(c, tr, t, t.ev.from);
  }

  lemma ReportOfCall(i: Input, p: Pair, k: nat)
    requires p.Proper() && k < |EventsOf(i, p)| && EventsOf(i, p)[k].Report?
    ensures i.call.Message? && i.call.msg.HealthReportMsg?
    ensures var ev, reports := EventsOf(i, p)[k], i.call.msg.reports;
            exists j :: 0 <= j < |reports| && reports[j].peerId == (if ev.from.Lo? then p.hi else p.lo)
                        && reports[j].mode == ev.mode && reports[j].rxAlive == ev.rxAlive
  {
    hide Less, PairOf, UpsertsFor, ReportsFor;
    EventIsOfCall(i, p, k);
    var from, reports := i.call.from, i.call.msg.reports;
    UpsertsAre(from, reports, p);
    ReportsComeFrom(from, reports, p);
    var ups := if Storable(i.peers, from, reports) then UpsertsFor(from, reports, p) else [];
    assert EventsOf(i, p) == ups + ReportsFor(from, reports, p);
    ReportIsBehind(ups, ReportsFor(from, reports, p), k);
  }

  lemma ReportIsBehind(ups: seq<Event>, reports: seq<Event>, k: nat)
    requires k < |ups + reports| && (ups + reports)[k].Report? && forall i :: 0 <= i < |ups| ==> ups[i].Upsert?
    ensures k >= |ups| && (ups + reports)[k] == reports[k - |ups|]
  {
  }

  // ----- steps of the whole run -----

  /** Every step of a pair's run is one of some call. */
  lemma {:induction false} StepIsOfCall(h: seq<Input>, p: Pair, i: nat) returns (n: nat, k: nat)
    requires i < |Project(h, p)|
    ensures n < |h| && k < |TimedOf(h[n], p)| && i == |Project(h[..n], p)| + k
    ensures Upto(h, n, k, p) == Project(h, p)[..i] && TimedOf(h[n], p)[k] == Project(h, p)[i]
    ensures Upto(h, n, k + 1, p) == Project(h, p)[..i + 1]
    decreases |h|
  {
    hide TimedOf;
    var l := |h| - 1;
    var before := Project(h[..l], p);
    if i < |before| {
      n, k := StepIsOfCall(h[..l], p, i);
      assert h[..l][..n] == h[..n] && h[..l][n] == h[n];
      assert Project(h, p)[..i] == before[..i] && Project(h, p)[..i + 1] == before[..i + 1];
    } else {
      n, k := l, i - |before|;
      assert Project(h, p)[..i] == before + TimedOf(h[l], p)[..k];
      assert Project(h, p)[..i + 1] == before + TimedOf(h[l], p)[..k + 1];
    }
  }

  /** What a call pushed is in the outbox. */
  lemma PushedIsInOutbox(s: Server, n: nat, p: Pair, m: Sent)
    requires s.Valid() && p.Proper() && n < |s.history| && m in PushedBy(s.config, s.history, n, p)
    ensures exists push :: push in s.outbox && push.body == m.body && push.delivered == m.delivered
                           && push.to == (if m.to.Lo? then p.lo else p.hi)
                           && push.other == (if m.to.Lo? then p.hi else p.lo)
  {
    hide LogOf, Less, Project, Run, PushedBy, PairOf;
    PushedStays(s.config, s.history, n, p, m);
    assert s.Slice(p) == Run(s.config, Project(s.history, p));
    assert s.Slice(p).log == LogOf(s.outbox, p);
    FromOutbox(s.outbox, p, m);
  }

  lemma {:induction false} PushedStays(c: Config, h: seq<Input>, n: nat, p: Pair, m: Sent)
    requires n < |h| && m in PushedBy(c, h, n, p)
    ensures m in Run(c, Project(h, p)).log
    decreases |h|
  {
    hide TimedOf, Run;
    var l := |h| - 1;
    PushedMeans(c, h, l, p, m);
    assert h[..l + 1] == h;
    if n < l {
      assert h[..l][..n] == h[..n] && h[..l][..n + 1] == h[..n + 1];
      PushedStays(c, h[..l], n, p, m);
    }
  }

  lemma {:induction false} FromOutbox(box: seq<Push>, p: Pair, m: Sent)
    requires p.Proper() && m in LogOf(box, p)
    ensures exists push :: push in box && push.body == m.body && push.delivered == m.delivered
                           && push.to == (if m.to.Lo? then p.lo else p.hi)
                           && push.other == (if m.to.Lo? then p.hi else p.lo)
  {
    hide PairOf, Less;
    var l := |box| - 1;
    assert box == box[..l] + [box[l]];
    if m in LogOf(box[..l], p) {
      FromOutbox(box[..l], p, m);
    } else {
      WhoReports(box[l].to, box[l].other, p, m.to);
      assert box[l].body == m.body;
    }
  }
}
