/** When the evidence behind a switch-direct verdict belongs to the probe that the verdict decides. */
module Freshness {
  import opened Common
  import opened PairMachine
  import opened AgentMachine
  import opened Sessions
  import opened RelayEvidence
  import opened System
  import opened DirectEvidence

  /** The negotiation active at the start stays active through the run, so it is one and the same. */
  predicate During(c: Config, b: Sys, acts: seq<Act>)
    requires Reachable(c, b, acts)
    decreases |acts|
  {
    After(c, b, acts).pair.neg.Some? && (acts == [] || During(c, b, acts[..|acts| - 1]))
  }

  /** The negotiation active at b can still be active at y. */
  ghost predicate Leads(c: Config, b: Sys, y: Sys) {
    exists acts: seq<Act> :: Reachable(c, b, acts) && During(c, b, acts) && After(c, b, acts) == y
  }

  lemma LeadsSelf(c: Config, b: Sys)
    requires b.pair.neg.Some?
    ensures Leads(c, b, b)
  {
    assert Reachable(c, b, []) && After(c, b, []) == b && During(c, b, []);
  }

  lemma LeadsNext(c: Config, b: Sys, y: Sys, a: Act)
    requires Leads(c, b, y) && Enabled(y, a) && Next(c, y, a).pair.neg.Some?
    ensures Leads(c, b, Next(c, y, a))
  {
    hide Next, Enabled;
    var acts: seq<Act> :| Reachable(c, b, acts) && During(c, b, acts) && After(c, b, acts) == y;
    AfterOneMore(c, b, acts, a);
    assert (acts + [a])[..|acts + [a]| - 1] == acts;
    assert During(c, b, acts + [a]);
  }

  /** Since the moment b, end x has received a datagram with a nonce made, announced and passed on since. */
  ghost predicate Fresh(b: Sys, f: Facts, x: Side) {
    exists d :: Genuine(f, x, d) && d.nonce !in b.past.issued && d !in b.past.got.At(x)
  }

  /** Act a at y sends a switch-direct verdict. */
  predicate Switches(c: Config, y: Sys, a: Act) {
    Enabled(y, a) && Decides(y.pair, Next(c, y, a).pair, SwitchDirect)
  }

  /** However the probe just opened at b goes on, a switch-direct verdict on it stands on fresh evidence at both
      ends. */
  ghost predicate AlwaysFresh(c: Config, b: Sys) {
    forall y, a :: Leads(c, b, y) && Switches(c, y, a) ==>
      Fresh(b, FactsOf(Next(c, y, a)), Lo) && Fresh(b, FactsOf(Next(c, y, a)), Hi)
  }

  /** A running go loop on this entry has seen its nonce, or a datagram already sent can still show it. */
  ghost predicate StaleEntry(k: Past, e: Entry) {
    e.resolved || (e.open && exists d :: d in k.flying && d.port == e.port && e.expected == Some(d.nonce))
  }

  ghost predicate StaleLoop(y: Sys, x: Side) {
    var a := y.agents.At(x);
    exists id :: id in a.loops && id in a.entries && StaleEntry(y.past, a.entries[id])
  }

  /** The part of a channel to the server that the active probe can still see: an error ends it. */
  function Live(q: seq<Event>): seq<Event> {
    if q == [] || q[0].ProbeError? then [] else [q[0]] + Live(q[1..])
  }

  lemma {:induction false} LiveAppend(p: seq<Event>, q: seq<Event>)
    ensures Live(p + q) == if Live(p) == p then p + Live(q) else Live(p)
    ensures Live(p) <= p
    decreases |p|
  {
    if p == [] {
      assert p + q == q;
    } else {
      assert (p + q)[1..] == p[1..] + q;
      LiveAppend(p[1..], q);
      assert p == [p[0]] + p[1..];
    }
  }

  /** Of an earlier probe neither a go is under way to the agents, nor a ready or a success to the server. */
  predicate NothingOld(y: Sys, x: Side) {
    && (forall i :: 0 <= i < |y.down.At(x)| ==> !y.down.At(x)[i].ProbeDirectGo?)
    && var up := Live(y.up.At(x));
       forall i :: 0 <= i < |up| ==> !up[i].DirectReady? && !(up[i].DirectResult? && up[i].success)
  }

  /** A direct probe has just been opened. */
  predicate JustOpened(y: Sys) {
    && y.pair.neg.Some? && y.pair.neg.value.DirectProbe?
    && y.pair.neg.value.readyA.None? && y.pair.neg.value.readyB.None?
    && y.pair.neg.value.resultA.None? && y.pair.neg.value.resultB.None?
  }

  // ----- the invariant while the probe lasts -----

  predicate NewNonce(b: Sys, nonce: string) { nonce !in b.past.issued }

  ghost predicate FreshUp(b: Sys, f: Facts, x: Side, ev: Event) {
    && (ev.DirectReady? ==> NewNonce(b, ev.ready.nonce))
    && (ev.DirectResult? && ev.success ==> Fresh(b, f, x))
  }

  ghost predicate FreshUps(b: Sys, f: Facts, x: Side, q: seq<Event>) {
    forall i :: 0 <= i < |q| ==> FreshUp(b, f, x, q[i])
  }

  predicate FreshDowns(b: Sys, q: seq<Body>) {
    forall i :: 0 <= i < |q| && q[i].ProbeDirectGo? ==> NewNonce(b, q[i].peerNonce)
  }

  ghost predicate FreshNeg(b: Sys, f: Facts, n: Option<Neg>) {
    && n.Some? && n.value.DirectProbe?
    && (n.value.readyA.Some? ==> NewNonce(b, n.value.readyA.value.nonce))
    && (n.value.readyB.Some? ==> NewNonce(b, n.value.readyB.value.nonce))
    && (n.value.resultA == Some(true) ==> Fresh(b, f, Lo))
    && (n.value.resultB == Some(true) ==> Fresh(b, f, Hi))
  }

  function ReadyOf(n: Neg, x: Side): Option<Ready>
    requires n.DirectProbe?
  {
    if x.Lo? then n.readyA else n.readyB
  }

  /** The server has x's ready message, or may still get it, or has already answered it. */
  predicate ReadyOut(y: Sys, x: Side) {
    || (y.pair.neg.Some? && y.pair.neg.value.DirectProbe? && ReadyOf(y.pair.neg.value, x).Some?)
    || (exists i :: 0 <= i < |Live(y.up.At(x))| && Live(y.up.At(x))[i].DirectReady?)
    || (exists i :: 0 <= i < |y.down.At(x)| && y.down.At(x)[i].ProbeDirectGo?)
  }

  /** Entries made since b expect and prove only what is new; those a loop was running on at b stay unresolved. */
  ghost predicate FreshEntry(b: Sys, f: Facts, x: Side, id: nat, e: Entry) {
    if id in b.agents.At(x).entries then
      var e0 := b.agents.At(x).entries[id];
      && e.port == e0.port && e.expected == e0.expected && (e.open ==> e0.open)
      && (id in b.agents.At(x).loops ==> !e.resolved)
    else
      && NewNonce(b, e.nonce)
      && (e.expected.Some? ==> NewNonce(b, e.expected.value))
      && (e.resolved ==> Fresh(b, f, x))
  }

  ghost predicate FreshAgent(b: Sys, f: Facts, x: Side, a: Agent) {
    && b.agents.At(x).entries.Keys <= a.entries.Keys
    && (forall id :: id in a.entries ==> FreshEntry(b, f, x, id, a.entries[id]))
    && (forall id :: id in a.loops && id in b.agents.At(x).entries ==> id in b.agents.At(x).loops)
  }

  /** Once x's ready message is out its slot holds a socket made since b, or none. */
  predicate FreshSlot(b: Sys, y: Sys, x: Side) {
    ReadyOut(y, x) ==> y.agents.At(x).slot.None? || y.agents.At(x).slot.value !in b.agents.At(x).entries
  }

  ghost predicate FreshEnd(b: Sys, y: Sys, x: Side) {
    && FreshUps(b, FactsOf(y), x, Live(y.up.At(x))) && FreshDowns(b, y.down.At(x))
    && FreshAgent(b, FactsOf(y), x, y.agents.At(x)) && FreshSlot(b, y, x)
  }

  predicate FreshFlight(b: Sys, k: Past) {
    forall d :: d in k.flying && d !in b.past.flying ==> NewNonce(b, d.nonce)
  }

  /** What was good at b still is, and nothing of before b can pass for something of the probe. */
  ghost predicate FreshInv(b: Sys, y: Sys) {
    && Good(y) && Grows(FactsOf(b), FactsOf(y))
    && FreshNeg(b, FactsOf(y), y.pair.neg) && FreshFlight(b, y.past)
    && FreshEnd(b, y, Lo) && FreshEnd(b, y, Hi)
  }

  /** No running loop at b is stale, and what loops then expect was issued before. */
  ghost predicate Base(b: Sys) {
    && Good(b) && !StaleLoop(b, Lo) && !StaleLoop(b, Hi)
  }

  // ----- growth -----

  lemma FreshGrows(b: Sys, f: Facts, f': Facts, x: Side)
    requires Grows(f, f')
    ensures Fresh(b, f, x) ==> Fresh(b, f', x)
  {
    hide Genuine, Grows;
    if Fresh(b, f, x) {
      var d :| Genuine(f, x, d) && d.nonce !in b.past.issued && d !in b.past.got.At(x);
      GenuineGrows(f, f', x, d);
    }
  }

  lemma GrowsOn(f: Facts, f': Facts, f'': Facts)
    requires Grows(f, f') && Grows(f', f'')
    ensures Grows(f, f'')
  {
  }

  lemma FreshUpsGrow(b: Sys, f: Facts, f': Facts, x: Side, q: seq<Event>)
    requires Grows(f, f') && FreshUps(b, f, x, q)
    ensures FreshUps(b, f', x, q)
  {
    hide Fresh;
    FreshGrows(b, f, f', x);
  }

  lemma FreshAgentGrows(b: Sys, f: Facts, f': Facts, x: Side, a: Agent)
    requires Grows(f, f') && FreshAgent(b, f, x, a)
    ensures FreshAgent(b, f', x, a)
  {
    hide Fresh;
    FreshGrows(b, f, f', x);
  }

  lemma FreshNegGrows(b: Sys, f: Facts, f': Facts, n: Option<Neg>)
    requires Grows(f, f') && FreshNeg(b, f, n)
    ensures FreshNeg(b, f', n)
  {
    hide Fresh;
    FreshGrows(b, f, f', Lo);
    FreshGrows(b, f, f', Hi);
  }

  /** So a datagram with a nonce not issued at b was neither sent nor received by then. */
  lemma FlyingIsIssued(b: Sys, d: Datagram)
    requires Good(b) && d in b.past.flying
    ensures d.nonce in b.past.issued
  {
    assert GoodFlight(FactsOf(b), d);
  }

  // ----- the server's steps -----

  lemma StaysDirect(c: Config, s: PairState, t: Timed)
    requires Sound(s) && s.neg.Some? && s.neg.value.DirectProbe? && Step(c, s, t).neg.Some?
    ensures Step(c, s, t).neg.value.DirectProbe?
  {
    hide Step, MoveOf, MoveLog;
    StepMakesMove(c, s, t);
  }

  /** A go is sent only when both ends are ready. */
  lemma GoNeedsBoth(c: Config, s: PairState, t: Timed, m: Sent)
    requires Sound(s) && s.neg.Some? && s.neg.value.DirectProbe?
    requires m in Added(s, Step(c, s, t)) && m.body.ProbeDirectGo?
    ensures t.ev.DirectReady? && ReadyOf(s.neg.value, t.ev.from.Other()).Some?
  {
    var added := Added(s, Step(c, s, t));
    var i :| 0 <= i < |added| && added[i] == m;
    GoIsMove(c, s, t, i);
    OnlyReadyGoes(c, s, t);
  }

  lemma GoIsMove(c: Config, s: PairState, t: Timed, i: nat)
    requires Sound(s) && i < |Added(s, Step(c, s, t))| && Added(s, Step(c, s, t))[i].body.ProbeDirectGo?
    ensures MoveOf(s, Step(c, s, t), t).Gos?
  {
    hide Step, Added, MoveOf, Makes;
    StepMakesMove(c, s, t);
    MoveAdds(s, Step(c, s, t), MoveOf(s, Step(c, s, t), t));
  }

  lemma ReadyComesFrom(c: Config, s: PairState, t: Timed, x: Side)
    requires s.neg.Some? && s.neg.value.DirectProbe? && Step(c, s, t).neg.Some? && Step(c, s, t).neg.value.DirectProbe?
    requires ReadyOf(Step(c, s, t).neg.value, x).Some?
    ensures ReadyOf(s.neg.value, x).Some? || (t.ev.DirectReady? && t.ev.from == x)
  {
    hide Step;
    NegFrom(c, s, t);
  }

  lemma NegStaysFresh(c: Config, b: Sys, y: Sys, t: Timed)
    requires FreshInv(b, y) && Step(c, y.pair, t).neg.Some?
    requires FromAgent(t.ev) ==> FreshUp(b, FactsOf(y), t.ev.from, t.ev)
    ensures FreshNeg(b, FactsOf(y), Step(c, y.pair, t).neg)
  {
    hide Step, Sound, GoodNeg, GoodLog, GoodPast, GoodEnd, Grows, FreshEnd, FreshFlight, Fresh;
    StaysDirect(c, y.pair, t);
    NegFrom(c, y.pair, t);
  }

  /** The gos that reach an end carry new nonces. */
  lemma DownStaysFresh(c: Config, b: Sys, y: Sys, t: Timed, x: Side)
    requires FreshInv(b, y)
    requires FromAgent(t.ev) ==> FreshUp(b, FactsOf(y), t.ev.from, t.ev)
    ensures FreshDowns(b, ServerMoves(c, y, t).down.At(x))
  {
    hide Step, Added, Grows, FreshUps, FreshAgent, FreshSlot, FreshFlight, Fresh, GoodNeg, GoodLog, GoodPast, GoodEnd;
    var added := Added(y.pair, Step(c, y.pair, t));
    DeliveredIsSent(added, x);
    var q := Delivered(added, x);
    forall i | 0 <= i < |q| && q[i].ProbeDirectGo? ensures NewNonce(b, q[i].peerNonce) {
      var m := Sent(x, q[i], true);
      var j :| 0 <= j < |added| && added[j] == m;
      GosFrom(c, y.pair, t, j);
    }
  }

  /** Whoever's ready message is out after a server step had it out before, or it was the message handled. */
  lemma ReadyWasOut(c: Config, b: Sys, y: Sys, t: Timed, x: Side)
    requires FreshInv(b, y) && Step(c, y.pair, t).neg.Some? && ReadyOut(ServerMoves(c, y, t), x)
    ensures ReadyOut(y, x) || (t.ev.DirectReady? && t.ev.from == x)
  {
    hide Step, Added, Sound, Grows, FreshUps, FreshAgent, FreshSlot, FreshFlight, Fresh, GoodNeg, GoodLog, GoodPast,
         GoodEnd;
    StaysDirect(c, y.pair, t);
    var y' := ServerMoves(c, y, t);
    if i :| 0 <= i < |y'.down.At(x)| && y'.down.At(x)[i].ProbeDirectGo? {
      GoWasReady(c, y, t, x, i);
    } else if ReadyOf(y'.pair.neg.value, x).Some? {
      ReadyComesFrom(c, y.pair, t, x);
    }
  }

  lemma GoWasReady(c: Config, y: Sys, t: Timed, x: Side, i: nat)
    requires Good(y) && y.pair.neg.Some? && y.pair.neg.value.DirectProbe?
    requires i < |ServerMoves(c, y, t).down.At(x)| && ServerMoves(c, y, t).down.At(x)[i].ProbeDirectGo?
    ensures ReadyOut(y, x) || (t.ev.DirectReady? && t.ev.from == x)
  {
    hide Step, Added, Sound, GoodNeg, GoodLog, GoodPast, GoodEnd;
    var added := Added(y.pair, Step(c, y.pair, t));
    DeliveredIsSent(added, x);
    var kept := DownAfter(y.down, t.ev).At(x);
    var body := ServerMoves(c, y, t).down.At(x)[i];
    if i < |kept| {
      assert kept == y.down.At(x) && y.down.At(x)[i] == body;
    } else {
      assert body == Delivered(added, x)[i - |kept|];
      GoNeedsBoth(c, y.pair, t, Sent(x, body, true));
    }
  }

  lemma ServerKeepsFresh(c: Config, b: Sys, y: Sys, t: Timed)
    requires FreshInv(b, y) && Step(c, y.pair, t).neg.Some?
    requires FromAgent(t.ev) ==> GoodUp(FactsOf(y), t.ev.from, t.ev) && FreshUp(b, FactsOf(y), t.ev.from, t.ev)
    requires t.ev.DirectReady? ==> forall id ::
             y.agents.At(t.ev.from).slot == Some(id) ==> id !in b.agents.At(t.ev.from).entries
    ensures FreshInv(b, ServerMoves(c, y, t))
  {
    var y' := ServerMoves(c, y, t);
    var f, f' := FactsOf(y), FactsOf(y');
    ServerKeepsGood(c, y, t);
    LogExtends(c, y.pair, t);
    assert Grows(f, f');
    GrowsOn(FactsOf(b), f, f');
    NegStaysFresh(c, b, y, t);
    FreshNegGrows(b, f, f', Step(c, y.pair, t).neg);
    if ReadyOut(y', Lo) { ReadyWasOut(c, b, y, t, Lo); }
    if ReadyOut(y', Hi) { ReadyWasOut(c, b, y, t, Hi); }
    DownStaysFresh(c, b, y, t, Lo);
    DownStaysFresh(c, b, y, t, Hi);
    FreshAgentGrows(b, f, f', Lo, y.agents.lo);
    FreshAgentGrows(b, f, f', Hi, y.agents.hi);
    FreshUpsGrow(b, f, f', Lo, Live(y.up.lo));
    FreshUpsGrow(b, f, f', Hi, Live(y.up.hi));
    hide Step, Good, Grows, FreshNeg, FreshAgent, FreshDowns, ReadyOut, FreshUp;
  }

  // ----- the agents' steps -----

  /** Messages other than a start and a go leave the entries alone or close the slot's. */
  lemma MessageEntries(a: Agent, body: Body, w: World)
    requires !body.ProbeDirectStart? && !body.ProbeDirectGo?
    ensures var a' := OnMessage(a, body, w);
            && a'.loops == a.loops
            && ((a'.entries == a.entries && a'.slot == a.slot)
                || (a'.entries == CloseSocket(a).entries && a'.slot.None?))
  {
  }

  lemma CloseKeepsFresh(b: Sys, f: Facts, x: Side, a: Agent)
    requires FreshAgent(b, f, x, a)
    ensures FreshAgent(b, f, x, CloseSocket(a)) && CloseSocket(a).slot.None? && CloseSocket(a).loops == a.loops
  {
    hide Fresh;
  }

  lemma GoKeepsFresh(b: Sys, f: Facts, x: Side, a: Agent, nonce: string)
    requires FreshAgent(b, f, x, a) && NewNonce(b, nonce)
    requires a.slot.Some? ==> a.slot.value !in b.agents.At(x).entries
    ensures FreshAgent(b, f, x, OnGo(a, nonce)) && OnGo(a, nonce).slot == a.slot
  {
    hide Fresh;
  }

  /** Messages other than a start keep the slot or empty it, and touch old entries only by closing them. */
  lemma MessageKeepsFresh(b: Sys, f: Facts, x: Side, a: Agent, body: Body, w: World)
    requires FreshAgent(b, f, x, a) && !body.ProbeDirectStart?
    requires body.ProbeDirectGo? ==>
             NewNonce(b, body.peerNonce) && (a.slot.Some? ==> a.slot.value !in b.agents.At(x).entries)
    ensures FreshAgent(b, f, x, OnMessage(a, body, w))
  {
    if body.ProbeDirectGo? {
      GoKeepsFresh(b, f, x, a, body.peerNonce);
    } else {
      hide FreshEntry, OnMessage, CloseSocket;
      MessageEntries(a, body, w);
      CloseKeepsFresh(b, f, x, a);
    }
  }

  lemma StartKeepsFresh(b: Sys, f: Facts, x: Side, a: Agent, w: World)
    requires FreshAgent(b, f, x, a) && w.id !in a.entries && NewNonce(b, w.nonce)
    ensures FreshAgent(b, f, x, OnMessage(a, ProbeDirectStart, w))
    ensures w.bindOk ==> OnMessage(a, ProbeDirectStart, w).slot == Some(w.id) && w.id !in b.agents.At(x).entries
    ensures !w.bindOk ==> OnMessage(a, ProbeDirectStart, w).slot == a.slot
    ensures FreshUps(b, f, x, Reply(a, x, ProbeDirectStart, w))
  {
    hide Fresh;
  }

  lemma OtherReplyFresh(b: Sys, f: Facts, x: Side, a: Agent, body: Body, w: World)
    requires !body.ProbeDirectStart?
    ensures FreshUps(b, f, x, Reply(a, x, body, w))
    ensures forall i :: 0 <= i < |Reply(a, x, body, w)| ==> !Reply(a, x, body, w)[i].DirectReady?
  {
  }

  lemma FreshUpsJoin(b: Sys, f: Facts, x: Side, p: seq<Event>, q: seq<Event>)
    requires FreshUps(b, f, x, Live(p)) && FreshUps(b, f, x, q)
    ensures FreshUps(b, f, x, Live(p + q))
  {
    hide FreshUp, Live;
    LiveAppend(p, q);
    LiveAppend(q, []);
    var l := Live(p + q);
    forall i | 0 <= i < |l| ensures FreshUp(b, f, x, l[i]) {
      if i < |Live(p)| {
        assert l[i] == Live(p)[i];
      } else {
        assert l[i] == q[i - |p|];
      }
    }
  }

  /** A datagram put on the wire by a go carries the nonce of a socket made since b. */
  lemma FlightStaysFresh(b: Sys, y: Sys, x: Side, w: World)
    requires FreshInv(b, y) && Enabled(y, DeliverDown(x, w))
    ensures FreshFlight(b, AgentMoves(y, x, w).past)
  {
    hide Good, Grows, FreshNeg, FreshUps, FreshDowns, Fresh, OnMessage, Reply;
    var a, body := y.agents.At(x), y.down.At(x)[0];
    if body.ProbeDirectGo? && a.slot.Some? && a.slot.value in a.entries {
      assert ReadyOut(y, x);
      assert FreshEntry(b, FactsOf(y), x, a.slot.value, a.entries[a.slot.value]);
    }
  }

  lemma SlotStaysFresh(b: Sys, y: Sys, x: Side, w: World)
    requires FreshInv(b, y) && Enabled(y, DeliverDown(x, w))
    ensures FreshSlot(b, AgentMoves(y, x, w), x)
  {
    hide Good, Grows, FreshNeg, FreshUps, FreshDowns, Fresh, FreshFlight, OnMessage, Reply, OnGo;
    var a, body := y.agents.At(x), y.down.At(x)[0];
    var y' := AgentMoves(y, x, w);
    if body.ProbeDirectStart? {
      StartSlot(a, x, w);
    } else {
      OtherSlot(a, x, body, w);
    }
    if ReadyOut(y', x) { ReadyOutNext(y, x, w); }
  }

  lemma StartSlot(a: Agent, x: Side, w: World)
    ensures OnMessage(a, ProbeDirectStart, w).slot == if w.bindOk then Some(w.id) else a.slot
    ensures !w.bindOk ==> forall i :: 0 <= i < |Reply(a, x, ProbeDirectStart, w)| ==>
            !Reply(a, x, ProbeDirectStart, w)[i].DirectReady?
  {
  }

  lemma OtherSlot(a: Agent, x: Side, body: Body, w: World)
    requires !body.ProbeDirectStart?
    ensures OnMessage(a, body, w).slot.None? || OnMessage(a, body, w).slot == a.slot
    ensures forall i :: 0 <= i < |Reply(a, x, body, w)| ==> !Reply(a, x, body, w)[i].DirectReady?
  {
  }

  /** Only a start whose socket could be bound brings a ready message out. */
  lemma ReadyOutNext(y: Sys, x: Side, w: World)
    requires Enabled(y, DeliverDown(x, w)) && ReadyOut(AgentMoves(y, x, w), x)
    ensures ReadyOut(y, x) || (y.down.At(x)[0].ProbeDirectStart? && w.bindOk)
  {
    hide OnMessage, Reply;
    var a, body := y.agents.At(x), y.down.At(x)[0];
    var y' := AgentMoves(y, x, w);
    if body.ProbeDirectStart? { StartSlot(a, x, w); } else { OtherSlot(a, x, body, w); }
    if i :| 0 <= i < |Live(y'.up.At(x))| && Live(y'.up.At(x))[i].DirectReady? {
      ReadyFromReply(y, x, w, i);
    } else if i :| 0 <= i < |y'.down.At(x)| && y'.down.At(x)[i].ProbeDirectGo? {
      assert y.down.At(x)[i + 1] == y'.down.At(x)[i];
    }
  }

  lemma ReadyFromReply(y: Sys, x: Side, w: World, i: nat)
    requires Enabled(y, DeliverDown(x, w))
    requires i < |Live(AgentMoves(y, x, w).up.At(x))| && Live(AgentMoves(y, x, w).up.At(x))[i].DirectReady?
    ensures ReadyOut(y, x) || exists j :: 0 <= j < |Reply(y.agents.At(x), x, y.down.At(x)[0], w)|
                                          && Reply(y.agents.At(x), x, y.down.At(x)[0], w)[j].DirectReady?
  {
    hide OnMessage, Reply, Live;
    var r, up := Reply(y.agents.At(x), x, y.down.At(x)[0], w), y.up.At(x);
    assert AgentMoves(y, x, w).up.At(x) == up + r;
    LiveAppend(up, r);
    LiveAppend(r, []);
    if i < |Live(up)| {
      assert Live(up)[i] == Live(up + r)[i];
    } else {
      assert Live(r)[i - |up|] == Live(up + r)[i] && Live(r)[i - |up|] == r[i - |up|];
    }
  }

  lemma OtherEndStays(b: Sys, y: Sys, y': Sys, x: Side)
    requires FreshEnd(b, y, x) && Grows(FactsOf(y), FactsOf(y'))
    requires y'.up.At(x) == y.up.At(x) && y'.down.At(x) == y.down.At(x) && y'.agents.At(x) == y.agents.At(x)
    requires y'.pair == y.pair
    ensures FreshEnd(b, y', x)
  {
    hide FreshAgent, FreshUp, FreshDowns, Grows;
    FreshUpsGrow(b, FactsOf(y), FactsOf(y'), x, Live(y.up.At(x)));
    FreshAgentGrows(b, FactsOf(y), FactsOf(y'), x, y.agents.At(x));
  }

  lemma AgentKeepsFresh(c: Config, b: Sys, y: Sys, x: Side, w: World)
    requires FreshInv(b, y) && Enabled(y, DeliverDown(x, w))
    ensures FreshInv(b, AgentMoves(y, x, w))
  {
    hide Good, Grows, FreshNeg, FreshAgent, FreshUp, FreshFlight, FreshSlot, OnMessage, Reply, ReadyOut, NewNonce;
    var y' := AgentMoves(y, x, w);
    var f, f' := FactsOf(y), FactsOf(y');
    var a, body := y.agents.At(x), y.down.At(x)[0];
    AgentKeepsGood(c, y, x, w);
    PastGood(y, x, w);
    GrowsOn(FactsOf(b), f, f');
    FreshNegGrows(b, f, f', y.pair.neg);
    FlightStaysFresh(b, y, x, w);
    SlotStaysFresh(b, y, x, w);
    FreshUpsGrow(b, f, f', x, Live(y.up.At(x)));
    FreshAgentGrows(b, f, f', x, a);
    OtherEndStays(b, y, y', x.Other());
    if body.ProbeDirectStart? {
      NewlyIssued(b, y, w.nonce);
      StartKeepsFresh(b, f', x, a, w);
    } else {
      GoIsFresh(b, y, x, w);
      MessageKeepsFresh(b, f', x, a, body, w);
      OtherReplyFresh(b, f', x, a, body, w);
    }
    FreshUpsJoin(b, f', x, y.up.At(x), Reply(a, x, body, w));
  }

  lemma NewlyIssued(b: Sys, y: Sys, nonce: string)
    requires Grows(FactsOf(b), FactsOf(y)) && nonce !in y.past.issued
    ensures NewNonce(b, nonce)
  {
  }

  lemma GoIsFresh(b: Sys, y: Sys, x: Side, w: World)
    requires FreshEnd(b, y, x) && Enabled(y, DeliverDown(x, w)) && !y.down.At(x)[0].ProbeDirectStart?
    ensures var a, body := y.agents.At(x), y.down.At(x)[0];
            body.ProbeDirectGo? ==>
                NewNonce(b, body.peerNonce) && (a.slot.Some? ==> a.slot.value !in b.agents.At(x).entries)
  {
    hide FreshAgent, FreshUps;
    var body := y.down.At(x)[0];
    if body.ProbeDirectGo? { assert ReadyOut(y, x); }
  }

  /** A datagram that marks an entry new since b is fresh; one that would mark an entry of a loop running at b does
      not exist. */
  lemma MarkStaysFresh(b: Sys, y: Sys, x: Side, id: nat, d: Datagram)
    requires Base(b) && FreshInv(b, y) && Enabled(y, Network(x, id, d))
    requires y.agents.At(x).entries[id].open && y.agents.At(x).entries[id].expected == Some(d.nonce)
    ensures var f := FactsOf(y.(past := Receive(y.past, x, d)));
            FreshEntry(b, f, x, id, y.agents.At(x).entries[id].(resolved := true))
  {
    hide FreshNeg, FreshUps, FreshDowns, FreshSlot, GoodNeg, Sound, Proved, Grows;
    var e := y.agents.At(x).entries[id];
    var y' := y.(past := Receive(y.past, x, d));
    assert FreshEntry(b, FactsOf(y), x, id, e);
    assert GoodEntry(FactsOf(y), x, e);
    if id !in b.agents.At(x).entries {
      ReceiptGood(FactsOf(y), x, d);
      GoodGrows(y, y'.past);
      assert GoodEntry(FactsOf(y'), x, e);
      ArrivalIsGenuine(FactsOf(y'), x, e, d);
      if d in b.past.got.At(x) { FlyingIsIssued(b, d); }
      assert Fresh(b, FactsOf(y'), x);
    } else if id in b.agents.At(x).loops {
      OldLoopIsStale(b, y, x, id, d);
    }
  }

  /** An entry that a loop was running on at b can only be marked by what was on the wire at b already. */
  lemma OldLoopIsStale(b: Sys, y: Sys, x: Side, id: nat, d: Datagram)
    requires Good(b) && FreshFlight(b, y.past) && d in y.past.flying
    requires id in b.agents.At(x).entries && id in b.agents.At(x).loops
    requires var e := b.agents.At(x).entries[id]; e.open && e.expected == Some(d.nonce) && e.port == d.port
    ensures StaleLoop(b, x)
  {
    hide GoodNeg, Sound, Proved, GoodPast;
    var e := b.agents.At(x).entries[id];
    assert GoodEntry(FactsOf(b), x, e);
    ExpectedIsIssued(b, x, d.nonce);
    assert d in b.past.flying;
    assert StaleEntry(b.past, e);
  }

  lemma ExpectedIsIssued(b: Sys, x: Side, nonce: string)
    requires Good(b) && Expects(FactsOf(b), x, nonce)
    ensures nonce in b.past.issued
  {
    hide Proved, GoodEnd, GoodNeg, Sound;
    var f := FactsOf(b);
    var m :| GoTo(f, x, m) && m.body.peerNonce == nonce;
    assert GoodSent(f, m);
    OwnNonce(f, x.Other(), Tells(m));
  }

  lemma NetworkKeepsFresh(c: Config, b: Sys, y: Sys, x: Side, id: nat, d: Datagram)
    requires Base(b) && FreshInv(b, y) && Enabled(y, Network(x, id, d))
    ensures FreshInv(b, Next(c, y, Network(x, id, d)))
  {
    hide Good, Grows, FreshNeg, FreshUp, FreshSlot, ReadyOut, Fresh;
    var y' := Next(c, y, Network(x, id, d));
    NetworkKeepsGood(c, y, x, id, d);
    var e := y.agents.At(x).entries[id];
    ReceiptGrows(y, x, d, e.open);
    var f, f' := FactsOf(y), FactsOf(y');
    GrowsOn(FactsOf(b), f, f');
    FreshNegGrows(b, f, f', y.pair.neg);
    OtherEndStays(b, y, y', x.Other());
    FreshUpsGrow(b, f, f', x, Live(y.up.At(x)));
    FreshAgentGrows(b, f, f', x, y.agents.At(x));
    SlotUnmoved(b, y, y', x);
    if e.open && e.expected == Some(d.nonce) {
      MarkStaysFresh(b, y, x, id, d);
    }
  }

  lemma ReceiptGrows(y: Sys, x: Side, d: Datagram, open: bool)
    requires d in y.past.flying
    ensures Grows(FactsOf(y), FactsOf(y.(past := if open then Receive(y.past, x, d) else y.past)))
  {
  }

  lemma SlotUnmoved(b: Sys, y: Sys, y': Sys, x: Side)
    requires FreshSlot(b, y, x) && y'.up.At(x) == y.up.At(x) && y'.down.At(x) == y.down.At(x) && y'.pair == y.pair
    requires y'.agents.At(x).slot == y.agents.At(x).slot || y'.agents.At(x).slot.None?
    ensures FreshSlot(b, y', x)
  {
  }

  lemma LoopKeepsFresh(c: Config, b: Sys, y: Sys, x: Side, id: nat, ok: bool)
    requires Base(b) && FreshInv(b, y) && Enabled(y, LoopEnds(x, id, ok))
    ensures FreshInv(b, Next(c, y, LoopEnds(x, id, ok)))
  {
    hide Good, Grows, FreshNeg, FreshFlight, FreshAgent, ReadyOut, OnLoopEnd, Next, Fresh;
    var a, f := y.agents.At(x), FactsOf(y);
    var y' := Next(c, y, LoopEnds(x, id, ok));
    LoopMoves(c, y, x, id, ok);
    LoopKeepsGood(c, y, x, id, ok);
    LoopSlot(y, y', c, x, id, ok);
    LoopEndKeepsFresh(b, f, x, a, id);
    SuccessIsFresh(b, y, x, id, ok);
    GrowsItself(f);
    OtherEndStays(b, y, y', x.Other());
    FreshUpsJoin(b, f, x, y.up.At(x), [DirectResult(x, ok)]);
  }

  lemma LoopMoves(c: Config, y: Sys, x: Side, id: nat, ok: bool)
    requires Enabled(y, LoopEnds(x, id, ok))
    ensures Next(c, y, LoopEnds(x, id, ok))
            == y.(agents := y.agents.Put(x, OnLoopEnd(y.agents.At(x), id)),
                  up := y.up.Put(x, y.up.At(x) + [DirectResult(x, ok)]))
  {
  }

  lemma LoopEndKeepsFresh(b: Sys, f: Facts, x: Side, a: Agent, id: nat)
    requires FreshAgent(b, f, x, a)
    ensures FreshAgent(b, f, x, OnLoopEnd(a, id))
  {
    hide Fresh, FreshEntry, CloseSocket;
    CloseKeepsFresh(b, f, x, a);
  }

  lemma SuccessIsFresh(b: Sys, y: Sys, x: Side, id: nat, ok: bool)
    requires FreshEnd(b, y, x) && Enabled(y, LoopEnds(x, id, ok))
    ensures FreshUps(b, FactsOf(y), x, [DirectResult(x, ok)])
  {
    hide Fresh;
    assert FreshEntry(b, FactsOf(y), x, id, y.agents.At(x).entries[id]);
  }

  lemma LoopSlot(y: Sys, y': Sys, c: Config, x: Side, id: nat, ok: bool)
    requires Enabled(y, LoopEnds(x, id, ok)) && y' == Next(c, y, LoopEnds(x, id, ok))
    ensures ReadyOut(y', x) ==> ReadyOut(y, x)
    ensures y'.agents.At(x).slot.None?
  {
    LiveAppend(y.up.At(x), [DirectResult(x, ok)]);
    LiveAppend([DirectResult(x, ok)], []);
    if i :| 0 <= i < |Live(y'.up.At(x))| && Live(y'.up.At(x))[i].DirectReady? {
      assert Live(y.up.At(x))[i].DirectReady?;
    }
  }

  // ----- whole runs -----

  lemma TakeUp(b: Sys, y: Sys, x: Side)
    requires FreshInv(b, y) && y.up.At(x) != [] && !y.up.At(x)[0].ProbeError?
    ensures FreshInv(b, y.(up := y.up.Put(x, y.up.At(x)[1..])))
    ensures GoodUp(FactsOf(y), x, y.up.At(x)[0]) && FreshUp(b, FactsOf(y), x, y.up.At(x)[0])
    ensures y.up.At(x)[0].DirectReady? ==> ReadyOut(y, x)
  {
    hide Sound, GoodNeg, GoodLog, GoodPast, GoodAgent, GoodDowns, Grows, FreshNeg, FreshFlight, FreshAgent, Fresh,
         Proved;
    var y1 := y.(up := y.up.Put(x, y.up.At(x)[1..]));
    assert Live(y.up.At(x)) == [y.up.At(x)[0]] + Live(y.up.At(x)[1..]);
    assert Live(y.up.At(x))[0] == y.up.At(x)[0];
    forall i | 0 <= i < |Live(y.up.At(x)[1..])| ensures Live(y.up.At(x)[1..])[i] == Live(y.up.At(x))[i + 1] {}
    forall z | ReadyOut(y1, z) ensures ReadyOut(y, z) {
      if i :| 0 <= i < |Live(y1.up.At(z))| && Live(y1.up.At(z))[i].DirectReady? {
        assert z == x ==> Live(y.up.At(x))[i + 1].DirectReady?;
        assert z != x ==> Live(y.up.At(z))[i].DirectReady?;
      }
    }
  }

  lemma ErrorEnds(c: Config, s: PairState, t: Timed)
    requires t.ev.ProbeError?
    ensures Step(c, s, t).neg.None?
  {
  }

  lemma ErrorDecidesNothing(c: Config, s: PairState, t: Timed)
    requires Sound(s) && t.ev.ProbeError?
    ensures !Decides(s, Step(c, s, t), SwitchDirect)
  {
    hide Step, Decides;
    StepMakesMove(c, s, t);
    VerdictEndsSession(s, Step(c, s, t), MoveOf(s, Step(c, s, t), t), SwitchDirect);
  }

  lemma DeliverUpKeepsFresh(c: Config, b: Sys, y: Sys, x: Side, env: Env)
    requires FreshInv(b, y) && y.up.At(x) != [] && Next(c, y, DeliverUp(x, env)).pair.neg.Some?
    ensures FreshInv(b, Next(c, y, DeliverUp(x, env)))
  {
    hide Good, Grows, FreshNeg, FreshFlight, FreshAgent, FreshUps, FreshDowns, Fresh, Proved, Step, ReadyOut;
    if y.up.At(x)[0].ProbeError? { ErrorEnds(c, y.pair, Timed(env, y.up.At(x)[0])); }
    TakeUp(b, y, x);
    ServerKeepsFresh(c, b, y.(up := y.up.Put(x, y.up.At(x)[1..])), Timed(env, y.up.At(x)[0]));
  }

  /** An end that at most loses its slot or what it has under way to the server stays fresh. */
  lemma EndLoses(b: Sys, y: Sys, y': Sys, x: Side)
    requires FreshEnd(b, y, x) && y'.pair == y.pair && y'.past == y.past && y'.down.At(x) == y.down.At(x)
    requires y'.up.At(x) == y.up.At(x) || y'.up.At(x) == []
    requires var a, a' := y.agents.At(x), y'.agents.At(x);
             && a'.loops == a.loops
             && ((a'.entries == a.entries && a'.slot == a.slot)
                 || (a'.entries == CloseSocket(a).entries && a'.slot.None?))
    ensures FreshEnd(b, y', x)
  {
    hide FreshUp, FreshDowns, FreshEntry, CloseSocket;
    CloseKeepsFresh(b, FactsOf(y), x, y.agents.At(x));
  }

  lemma CutKeepsFresh(c: Config, b: Sys, y: Sys, a: Act)
    requires FreshInv(b, y) && (a.AgentDisconnects? || a.CutUp? || a.Thaws?)
    ensures FreshInv(b, Next(c, y, a))
  {
    hide Good, Grows, FreshNeg, FreshFlight, FreshEnd, CloseSocket, OnDisconnect;
    var y' := Next(c, y, a);
    ActKeepsGood(c, y, a);
    DisconnectEntries(y.agents.At(a.x));
    EndLoses(b, y, y', a.x);
    EndLoses(b, y, y', a.x.Other());
  }

  lemma DisconnectEntries(a: Agent)
    ensures OnDisconnect(a).entries == CloseSocket(a).entries && OnDisconnect(a).slot.None?
    ensures OnDisconnect(a).loops == a.loops
  {
  }

  lemma ActKeepsFresh(c: Config, b: Sys, y: Sys, a: Act)
    requires Base(b) && FreshInv(b, y) && Enabled(y, a) && Next(c, y, a).pair.neg.Some?
    ensures FreshInv(b, Next(c, y, a))
  {
    hide Good, Grows, FreshNeg, FreshFlight, FreshEnd, Step, AgentMoves;
    match a
    case ServerAct(t) => ServerKeepsFresh(c, b, y, t);
    case DeliverUp(x, env) => DeliverUpKeepsFresh(c, b, y, x, env);
    case DeliverDown(x, w) => AgentKeepsFresh(c, b, y, x, w);
    case Network(x, id, d) => NetworkKeepsFresh(c, b, y, x, id, d);
    case LoopEnds(x, id, ok) => LoopKeepsFresh(c, b, y, x, id, ok);
    case _ => CutKeepsFresh(c, b, y, a);
  }

  lemma {:induction false} FreshRun(c: Config, b: Sys, acts: seq<Act>)
    requires Base(b) && FreshInv(b, b) && Reachable(c, b, acts) && During(c, b, acts)
    ensures FreshInv(b, After(c, b, acts))
    decreases |acts|
  {
    if acts != [] {
      FreshRun(c, b, acts[..|acts| - 1]);
      hide Next, FreshInv, Base;
      ActKeepsFresh(c, b, After(c, b, acts[..|acts| - 1]), acts[|acts| - 1]);
    }
  }

  lemma FreshStart(b: Sys)
    requires Base(b) && JustOpened(b) && NothingOld(b, Lo) && NothingOld(b, Hi)
    ensures FreshInv(b, b)
  {
    hide Good, Genuine;
    GrowsItself(FactsOf(b));
    forall x: Side, id | id in b.agents.At(x).entries && id in b.agents.At(x).loops
      ensures !b.agents.At(x).entries[id].resolved
    {
      assert !StaleEntry(b.past, b.agents.At(x).entries[id]) by { assert !StaleLoop(b, Lo) && !StaleLoop(b, Hi); }
    }
  }

  lemma ServerSwitchIsFresh(c: Config, b: Sys, y: Sys, t: Timed)
    requires FreshInv(b, y) && (FromAgent(t.ev) ==> FreshUp(b, FactsOf(y), t.ev.from, t.ev))
    requires Decides(y.pair, Step(c, y.pair, t), SwitchDirect)
    ensures Fresh(b, FactsOf(ServerMoves(c, y, t)), Lo) && Fresh(b, FactsOf(ServerMoves(c, y, t)), Hi)
  {
    hide Step, Decides, GoodNeg, GoodLog, GoodPast, GoodEnd, FreshFlight, FreshEnd, Fresh;
    LogExtends(c, y.pair, t);
    DirectVerdictFrom(c, y.pair, t);
    FreshGrows(b, FactsOf(y), FactsOf(ServerMoves(c, y, t)), Lo);
    FreshGrows(b, FactsOf(y), FactsOf(ServerMoves(c, y, t)), Hi);
  }

  lemma OnlyServerSwitches(c: Config, y: Sys, a: Act)
    requires Enabled(y, a)
    ensures Switches(c, y, a) ==> a.ServerAct? || a.DeliverUp?
  {
    if !a.ServerAct? && !a.DeliverUp? {
      assert Next(c, y, a).pair == y.pair;
      assert Added(y.pair, y.pair) == [];
    }
  }

  lemma SwitchIsNoError(c: Config, b: Sys, y: Sys, a: Act)
    requires FreshInv(b, y) && Switches(c, y, a) && a.DeliverUp?
    ensures !y.up.At(a.x)[0].ProbeError?
  {
    hide Step, Decides, GoodNeg, GoodLog, GoodPast, GoodEnd, FreshFlight, FreshEnd, Fresh;
    if y.up.At(a.x)[0].ProbeError? { ErrorDecidesNothing(c, y.pair, Timed(a.env, y.up.At(a.x)[0])); }
  }

  lemma SwitchIsFresh(c: Config, b: Sys, y: Sys, a: Act)
    requires FreshInv(b, y) && Switches(c, y, a)
    ensures Fresh(b, FactsOf(Next(c, y, a)), Lo) && Fresh(b, FactsOf(Next(c, y, a)), Hi)
  {
    hide FreshInv, Step, AgentMoves, Fresh;
    OnlyServerSwitches(c, y, a);
    if a.ServerAct? {
      ServerSwitchIsFresh(c, b, y, a.t);
    } else {
      SwitchIsNoError(c, b, y, a);
      TakeUp(b, y, a.x);
      ServerSwitchIsFresh(c, b, y.(up := y.up.Put(a.x, y.up.At(a.x)[1..])), Timed(a.env, y.up.At(a.x)[0]));
    }
  }

  /** Whatever else is under way or left over, if of earlier probes no go is under way to the agents, no ready and
      no success to the server, and no running go loop is stale, then every switch-direct verdict on the probe just
      opened stands on datagrams received since, with nonces made, announced and passed on since, at both ends. */
  lemma FreshIfNothingOld(c: Config, b: Sys)
    requires Good(b) && JustOpened(b) && NothingOld(b, Lo) && NothingOld(b, Hi)
    requires !StaleLoop(b, Lo) && !StaleLoop(b, Hi)
    ensures AlwaysFresh(c, b)
  {
    FreshStart(b);
    hide FreshInv, Good, JustOpened, StaleLoop, Fresh, Switches, Next, Enabled, NothingOld;
    forall y, a | Leads(c, b, y) && Switches(c, y, a)
      ensures Fresh(b, FactsOf(Next(c, y, a)), Lo) && Fresh(b, FactsOf(Next(c, y, a)), Hi)
    {
      var acts: seq<Act> :| Reachable(c, b, acts) && During(c, b, acts) && After(c, b, acts) == y;
      FreshRun(c, b, acts);
      SwitchIsFresh(c, b, y, a);
    }
  }
}
