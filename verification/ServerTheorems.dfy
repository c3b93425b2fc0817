/** The one-pair theorems, read off the server: they hold of every pair of every server that its entry points
    can bring about, whatever happens to the other pairs in between. */
module ServerTheorems {
  import opened Common
  import opened PairKeys
  import opened PairMachine
  import opened Negotiator
  import opened Sessions
  import opened Streaks
  import opened Backoffs
  import opened RelayEvidence
  import opened ForcedPairs
  import opened Openings
  import opened Readings
  import opened Guards
  import Lifetimes

  lemma Stands(s: Server, p: Pair)
    requires s.Valid() && p.Proper()
    ensures s.Slice(p) == Run(s.config, Project(s.history, p))
  {
  }

  /** Pair isolation: what a server holds about a pair and what it has sent for it depend on nothing but the
      configuration and the events of that pair. */
  lemma PairsAreIsolated(s: Server, t: Server, p: Pair)
    requires s.Valid() && t.Valid() && p.Proper() && s.config == t.config
    requires Project(s.history, p) == Project(t.history, p)
    ensures s.Slice(p) == t.Slice(p)
    ensures LogOf(s.outbox, p) == LogOf(t.outbox, p)
    ensures p in s.activeNegotiations <==> p in t.activeNegotiations
  {
    hide LogOf, Project, Run, Less;
    Stands(s, p);
    Stands(t, p);
    s.Reads(p);
    t.Reads(p);
    assert s.Slice(p).log == LogOf(s.outbox, p) && t.Slice(p).log == LogOf(t.outbox, p);
  }

  /** Timer discipline: the armed timers and the active negotiations stand in one-to-one correspondence, each
      timer being of the kind its negotiation waits for; and both ends of each are distinct, in key order and
      connected. */
  lemma TimersMatchNegotiations(s: Server)
    requires s.Valid()
    ensures forall p :: p in s.activeNegotiations ==>
              && p.Proper() && p.lo != p.hi && p.lo in s.connections && p.hi in s.connections
              && exists id :: id in s.timers && s.timers[id].key == p
    ensures forall id, id' :: id in s.timers && id' in s.timers && s.timers[id].key == s.timers[id'].key ==> id == id'
    ensures forall id :: id in s.timers ==>
              && s.timers[id].key in s.activeNegotiations
              && (s.timers[id].OnReadyTimeout? ==>
                    s.timers[id].key in s.pairHealthMap && s.timers[id].health == s.pairHealthMap[s.timers[id].key])
  {
    forall p | p in s.activeNegotiations
      ensures p.lo != p.hi && exists id :: id in s.timers && s.timers[id].key == p
    {
      PairOfEnds(p);
      assert s.NegSound(p, s.activeNegotiations[p]);
      var id := s.activeNegotiations[p].timeoutId.value;
      assert id in s.timers && s.timers[id].key == p;
    }
    forall id | id in s.timers
      ensures s.timers[id].OnReadyTimeout? ==>
                s.timers[id].key in s.pairHealthMap && s.timers[id].health == s.pairHealthMap[s.timers[id].key]
    {
      var p := s.timers[id].key;
      assert s.NegSound(p, s.activeNegotiations[p]);
    }
  }

  /** What the server has pushed for a pair is a sequence of sessions, the last open while one is active. */
  lemma PushesAreSessions(s: Server, p: Pair)
    requires s.Valid() && p.Proper()
    ensures Grammatical(s.Slice(p))
    ensures Commands(LogOf(s.outbox, p), Lo) == Commands(LogOf(s.outbox, p), Hi)
  {
    hide LogOf, Project, Run, Less, Grammatical, Commands;
    Stands(s, p);
    GrammarRun(s.config, Project(s.history, p));
    CommandsAgree(s.config, Project(s.history, p));
    assert s.Slice(p).log == LogOf(s.outbox, p);
  }

  /** The fields of a health record, as functions of the pair's history. */
  lemma RecordsTellHistory(s: Server, p: Pair)
    requires s.Valid() && p.Proper() && p in s.pairHealthMap
    ensures var tr := Project(s.history, p);
            var h := s.pairHealthMap[p];
            && TrailingDead(Outcomes(s.config, tr, Lo), h.streakAB)
               && TrailingDead(Outcomes(s.config, tr, Hi), h.streakBA)
            && h.joinedAtA == JoinedAt(tr, Lo) && h.joinedAtB == JoinedAt(tr, Hi)
            && h.directProbeBackoff == Ladder(s.config.init, Failures(s.config, tr))
  {
    hide LogOf, Project, Run, Less, Outcomes, TrailingDead, JoinedAt, Ladder, Failures;
    var tr := Project(s.history, p);
    Stands(s, p);
    s.Reads(p);
    StreaksAreTrailingRuns(s.config, tr, Lo);
    StreaksAreTrailingRuns(s.config, tr, Hi);
    BackoffIsLadder(s.config, tr);
  }

  /** Bounded life: while timers and sweeps are at most `late` behind for a pair, its negotiation is never older
      than 40 s + late at the pair's last event, nor a relay probe than 15 s + late. */
  lemma NegotiationsAreYoung(s: Server, p: Pair, late: nat, boot: nat)
    requires s.Valid() && p in s.activeNegotiations
    requires Lifetimes.Punctual(s.config, late, boot, Project(s.history, p))
    ensures var now, n := Lifetimes.Now(boot, Project(s.history, p)), s.activeNegotiations[p];
            && n.startedAt <= now <= n.startedAt + 40_000 + late
            && (!n.direct ==> now <= n.startedAt + 15_000 + late)
  {
    hide LogOf, Project, Less, Run;
    var tr := Project(s.history, p);
    assert s.NegSound(p, s.activeNegotiations[p]);
    Stands(s, p);
    s.Reads(p);
    Lifetimes.YoungAtLastEvent(s.config, late, boot, tr);
  }

  // ----- probe budget -----

  /** The call neither restarts the server nor reaps an end of the pair. */
  predicate Remembers(call: Call, p: Pair) {
    !call.Restarted? && (call.Reaped? ==> forall i :: 0 <= i < |call.expired| ==> !p.Has(call.expired[i]))
  }

  predicate RemembersAll(h: seq<Input>, p: Pair) {
    forall i :: 0 <= i < |h| ==> Remembers(h[i].call, p)
  }

  predicate Forgetless(evs: seq<Event>) {
    forall i :: 0 <= i < |evs| ==> !evs[i].Restart? && !evs[i].Purge?
  }

  lemma {:induction false} ReportsForget(from: PeerId, reports: seq<HealthReport>, p: Pair)
    ensures Forgetless(UpsertsFor(from, reports, p)) && Forgetless(ReportsFor(from, reports, p))
  {
    if reports != [] { ReportsForget(from, reports[..|reports| - 1], p); }
  }

  lemma {:induction false} OthersGone(gone: seq<PeerId>, p: Pair)
    requires forall i :: 0 <= i < |gone| ==> !p.Has(gone[i])
    ensures PurgesFor(gone, p) == [] && CascadesFor(gone, p) == []
  {
    if gone != [] { OthersGone(gone[..|gone| - 1], p); }
  }

  lemma EventsForget(i: Input, p: Pair)
    requires Remembers(i.call, p)
    ensures Forgetless(EventsOf(i, p))
  {
    match i.call
    case Message(from, HealthReportMsg(reports)) => ReportsForget(from, reports, p);
    case Reaped(expired, _) => OthersGone(expired, p);
    case _ =>
  }

  lemma {:induction false} RecordKept(h: seq<Input>, p: Pair)
    requires RemembersAll(h, p)
    ensures KeepsRecord(Project(h, p))
  {
    if h != [] {
      RecordKept(h[..|h| - 1], p);
      EventsForget(h[|h| - 1], p);
    }
  }

  /** Probe budget: over a stretch of a server's history without a restart or the reaping of an end, the direct
      probes of a pair are spaced by the initial backoff, whatever else was asked of the server, and the record
      holds the time of the last one. */
  lemma ProbesAreSpaced(s: Server, p: Pair, h1: seq<Input>, h2: seq<Input>)
    requires s.Valid() && p.Proper() && s.history == h1 + h2 && RemembersAll(h2, p)
    ensures var starts := Starts(s.config, Run(s.config, Project(h1, p)), Project(h2, p));
            && (forall i, j :: 0 <= i <= j < |starts| ==> Apart(starts[i], starts[j], j - i, Gap(s.config)))
            && (starts != [] ==>
                  p in s.pairHealthMap && s.pairHealthMap[p].lastDirectProbeAt == starts[|starts| - 1])
  {
    hide LogOf, Less, Project, Run, RunFrom, Starts, Sound;
    var c, past := s.config, Project(h1, p);
    RecordKept(h2, p);
    SoundRun(c, past);
    BackoffAtLeastGap(c, past);
    BudgetRun(c, Run(c, past), Project(h2, p));
    RunOfProject(c, h1, h2, p);
    Stands(s, p);
    s.Reads(p);
  }

  // ----- evidence for switch-relay -----

  /** Step k of the run sends a switch-relay verdict, and it is founded. */
  ghost predicate FoundedVerdict(c: Config, tr: seq<Timed>, k: nat) {
    && k < |tr|
    && var n := Run(c, tr[..k]).neg;
       && n.Some? && n.value.RelayProbe?
       && tr[k].ev == RelayResult(n.value.server.Other(), true)
       && Founded(c, tr[..k], n.value.server)
  }

  lemma LogGrows(c: Config, tr: seq<Timed>)
    requires tr != []
    ensures var before := Run(c, tr[..|tr| - 1]); before.log <= Run(c, tr).log
  {
    SoundRun(c, tr[..|tr| - 1]);
    StepCommands(c, Run(c, tr[..|tr| - 1]), tr[|tr| - 1]);
  }

  lemma EmptyRun(c: Config, tr: seq<Timed>)
    ensures Run(c, tr).log != [] ==> tr != []
  {
  }

  lemma {:induction false} RelayVerdictsFounded(c: Config, tr: seq<Timed>, i: nat)
    requires i < |Run(c, tr).log| && Run(c, tr).log[i].body == ProbeVerdict(SwitchRelay)
    ensures exists k: nat :: FoundedVerdict(c, tr, k)
  {
    hide Run, Founded;
    EmptyRun(c, tr);
    var before := tr[..|tr| - 1];
    LogGrows(c, tr);
    if i < |Run(c, before).log| {
      RelayVerdictsFounded(c, before, i);
      var k: nat :| FoundedVerdict(c, before, k);
      assert before[..k] == tr[..k];
      assert FoundedVerdict(c, tr, k);
    } else {
      assert Added(Run(c, before), Run(c, tr))[i - |Run(c, before).log|] == Run(c, tr).log[i];
      SwitchRelayIsFounded(c, tr);
      assert FoundedVerdict(c, tr, |tr| - 1);
    }
  }

  /** The probe that stands before step k was opened by step j of the n-th call: a health report of one of the two, for
      whose network the tables had the relay enabled, while both were online. */
  predicate OpenedBy(c: Config, h: seq<Input>, p: Pair, k: nat, n: nat, j: nat)
    requires n < |h| && j < |TimedOf(h[n], p)| && k <= |Project(h, p)|
  {
    && |Project(h[..n], p)| + j < k && Run(c, Upto(h, n, j, p)).neg.None?
    && Run(c, Upto(h, n, j + 1, p)).neg == Run(c, Project(h, p)[..k]).neg
    && h[n].call.Message? && h[n].call.msg.HealthReportMsg? && p.Has(h[n].call.from)
    && (var x, i := h[n].call.from, h[n];
        x in i.peers && i.peers[x].network in i.relayEnabled && i.relayEnabled[i.peers[x].network])
    && Online(h[..n], p.lo) && Online(h[..n], p.hi)
  }

  lemma FoundedOnTables(c: Config, h: seq<Input>, p: Pair, k: nat)
    requires p.Proper() && FoundedVerdict(c, Project(h, p), k)
    ensures exists n: nat, j: nat :: n < |h| && j < |TimedOf(h[n], p)| && OpenedBy(c, h, p, k, n, j)
  {
    hide Run, Project, TimedOf, Opening, Online, Less, Upto, StartsRelay;
    var tr := Project(h, p);
    var server := Run(c, tr[..k]).neg.value.server;
    var i: nat :| FoundedAt(c, tr[..k], server, i);
    assert tr[..k][..i] == tr[..i] && tr[..k][..i + 1] == tr[..i + 1] && tr[..k][..|tr[..k]|] == tr[..k];
    var n, j := StepIsOfCall(h, p, i);
    OpeningStarts(Run(c, tr[..i]), Run(c, tr[..i + 1]), tr[i]);
    StepServesIff(c, h, n, j, p);
    assert OpenedBy(c, h, p, k, n, j);
  }

  lemma OpeningStarts(s: PairState, s': PairState, t: Timed)
    requires Opening(s, s', t)
    ensures StartsRelay(s, s') && s.neg.None?
  {
  }

  /** Every switch-relay verdict a server ever pushed answers the success report of the client of a relay probe
      that was opened on full evidence, by a report whose network had the relay enabled, and left alone since. */
  lemma PushedRelayVerdictsAreFounded(s: Server, p: Pair, i: nat)
    requires s.Valid() && p.Proper()
    requires i < |LogOf(s.outbox, p)| && LogOf(s.outbox, p)[i].body == ProbeVerdict(SwitchRelay)
    ensures exists k: nat, n: nat, j: nat ::
              && FoundedVerdict(s.config, Project(s.history, p), k)
              && n < |s.history| && j < |TimedOf(s.history[n], p)| && OpenedBy(s.config, s.history, p, k, n, j)
  {
    hide LogOf, Project, Run, Less, FoundedVerdict, TimedOf, OpenedBy;
    Stands(s, p);
    assert s.Slice(p).log == LogOf(s.outbox, p);
    RelayVerdictsFounded(s.config, Project(s.history, p), i);
    var k: nat :| FoundedVerdict(s.config, Project(s.history, p), k);
    WithinRun(s.config, Project(s.history, p), k);
    FoundedOnTables(s.config, s.history, p, k);
  }

  lemma WithinRun(c: Config, tr: seq<Timed>, k: nat)
    requires FoundedVerdict(c, tr, k)
    ensures k < |tr|
  {
  }

  // ----- forced pairs -----

  lemma {:induction false} ProjectAppend(a: seq<Input>, b: seq<Input>, p: Pair)
    ensures Project(a + b, p) == Project(a, p) + Project(b, p)
    decreases |b|
  {
    hide TimedOf;
    if b == [] {
      assert a + b == a;
    } else {
      assert (a + b)[..|a + b| - 1] == a + b[..|b| - 1];
      ProjectAppend(a, b[..|b| - 1], p);
    }
  }

  /** The call neither puts the pair back on `auto` nor deletes an end of it. */
  predicate Spares(call: Call, p: Pair) {
    match call
    case Forces(a, b, target) => PairOf(a, b) == p ==> target.Some?
    case Deleted(x) => !p.Has(x)
    case Reaped(expired, deleted) => deleted ==> forall i :: 0 <= i < |expired| ==> !p.Has(expired[i])
    case _ => true
  }

  predicate SparesAll(h: seq<Input>, p: Pair) {
    forall i :: 0 <= i < |h| ==> Spares(h[i].call, p)
  }

  predicate Harmless(evs: seq<Event>) {
    forall i :: 0 <= i < |evs| ==> !evs[i].Cascade? && !(evs[i].Force? && evs[i].target.None?)
  }

  lemma {:induction false} ReportsHarmless(from: PeerId, reports: seq<HealthReport>, p: Pair)
    ensures Harmless(UpsertsFor(from, reports, p)) && Harmless(ReportsFor(from, reports, p))
  {
    if reports != [] {
      ReportsHarmless(from, reports[..|reports| - 1], p);
    }
  }

  lemma {:induction false} PurgesHarmless(gone: seq<PeerId>, p: Pair)
    ensures Harmless(PurgesFor(gone, p))
    ensures (forall i :: 0 <= i < |gone| ==> !p.Has(gone[i])) ==> CascadesFor(gone, p) == []
  {
    if gone != [] {
      PurgesHarmless(gone[..|gone| - 1], p);
    }
  }

  lemma EventsHarmless(i: Input, p: Pair)
    requires Spares(i.call, p)
    ensures Harmless(EventsOf(i, p))
  {
    match i.call
    case Message(from, HealthReportMsg(reports)) => ReportsHarmless(from, reports, p);
    case Reaped(expired, _) => PurgesHarmless(expired, p);
    case _ =>
  }

  lemma {:induction false} SparedRunUnbroken(h: seq<Input>, p: Pair)
    requires SparesAll(h, p)
    ensures Unbroken(Project(h, p))
  {
    if h != [] {
      SparedRunUnbroken(h[..|h| - 1], p);
      EventsHarmless(h[|h| - 1], p);
    }
  }

  /** A force command given when both link rows exist keeps the pair out of negotiation from then on: through
      reports, reconnects, sweeps, other pairs' business and restarts, until `auto` or the deletion of an end. */
  lemma ForcedPairStaysOut(s: Server, p: Pair, h1: seq<Input>, force: Input, h2: seq<Input>)
    requires s.Valid() && p.Proper() && s.history == h1 + [force] + h2
    requires force.call.Forces? && PairOf(force.call.a, force.call.b) == p && force.call.target.Some?
    requires Run(s.config, Project(h1, p)).rowLo.Some? && Run(s.config, Project(h1, p)).rowHi.Some?
    requires SparesAll(h2, p)
    ensures p !in s.activeNegotiations
  {
    hide LogOf, Less, Project, Run, RunFrom, StepForce, StaysOut, Unbroken;
    var c := s.config;
    var before := Run(c, Project(h1, p));
    var ev := Force(SideOf(p, force.call.a), force.call.target);
    var e := EnvOf(force.peers, force.relayEnabled, force.now, force.loFirst, p);
    ProjectAppend(h1 + [force], h2, p);
    ProjectExtend(c, h1, force, p);
    RunStampOne(c, before, e, ev);
    RunOfProject(c, h1 + [force], h2, p);
    SparedRunUnbroken(h2, p);
    ForcedStaysOutIffBothRows(c, before, Timed(e, ev));
    Applies(c, before, Timed(e, ev), Project(h2, p));
    Stands(s, p);
    s.Reads(p);
  }

  lemma RunOfProject(c: Config, a: seq<Input>, b: seq<Input>, p: Pair)
    ensures Run(c, Project(a + b, p)) == RunFrom(c, Run(c, Project(a, p)), Project(b, p))
  {
    ProjectAppend(a, b, p);
    RunFromAppend(c, INIT, Project(a, p), Project(b, p));
  }

  lemma Applies(c: Config, s: PairState, force: Timed, tr: seq<Timed>)
    requires StaysOut(c, s, force) && Unbroken(tr)
    ensures RunFrom(c, Step(c, s, force), tr).neg.None?
  {
  }
}
