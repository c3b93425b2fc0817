/** When a switch-direct verdict can stand on the evidence of an earlier probe: exactly when some is left over. */
module StaleEvidence {
  import opened Common
  import opened PairMachine
  import opened AgentMachine
  import opened Sessions
  import opened RelayEvidence
  import opened System
  import opened DirectEvidence
  import opened Freshness

  // ----- what an end can be made to report -----

  lemma Extends(c: Config, b: Sys, y: Sys, a: Act) returns (y': Sys)
    requires Leads(c, b, y) && Enabled(y, a) && Next(c, y, a).pair.neg.Some?
    ensures y' == Next(c, y, a) && Leads(c, b, y')
  {
    hide Next, Enabled, Leads;
    LeadsNext(c, b, y, a);
    y' := Next(c, y, a);
  }

  /** A loop that has seen its nonce, or still can, ends in a success; whatever it receives was already sent. */
  lemma LoopSpeaks(c: Config, b: Sys, u: Sys, x: Side) returns (u': Sys)
    requires Leads(c, b, u) && u.pair.neg.Some? && u.up.At(x) == [] && StaleLoop(u, x)
    ensures Leads(c, b, u') && u'.pair == u.pair && u'.down == u.down && u'.up == u.up.Put(x, [DirectResult(x, true)])
    ensures u'.agents.At(x.Other()) == u.agents.At(x.Other())
    ensures u'.past.issued == u.past.issued && u'.past.flying == u.past.flying
    ensures u'.past.got.At(x.Other()) == u.past.got.At(x.Other())
    ensures forall d :: d in u'.past.got.At(x) ==> d in u.past.got.At(x) || d in u.past.flying
  {
    hide Leads;
    var a := u.agents.At(x);
    var id: nat :| id in a.loops && id in a.entries && StaleEntry(u.past, a.entries[id]);
    u' := u;
    if !a.entries[id].resolved {
      var d :| d in u.past.flying && d.port == a.entries[id].port && a.entries[id].expected == Some(d.nonce);
      u' := Extends(c, b, u, Network(x, id, d));
    }
    u' := Extends(c, b, u', LoopEnds(x, id, true));
    assert u.up.At(x) + [DirectResult(x, true)] == [DirectResult(x, true)];
  }

  predicate Successes(y: Sys, x: Side) {
    forall i :: 0 <= i < |y.up.At(x)| ==> y.up.At(x)[i] == DirectResult(x, true)
  }

  function ResultOf(n: Neg, x: Side): Option<bool>
    requires n.DirectProbe?
  {
    if x.Lo? then n.resultA else n.resultB
  }

  function WithSuccess(n: Neg, x: Side): Neg
    requires n.DirectProbe?
  {
    if x.Lo? then n.(resultA := Some(true)) else n.(resultB := Some(true))
  }

  /** A success that arrives first is kept. */
  lemma SuccessKept(c: Config, s: PairState, x: Side, e: Env)
    requires s.neg.Some? && s.neg.value.DirectProbe? && ResultOf(s.neg.value, x.Other()).None?
    ensures var s' := Step(c, s, Timed(e, DirectResult(x, true)));
            s' == s.(neg := Some(WithSuccess(s.neg.value, x))) && Added(s, s') == []
  {
  }

  lemma {:induction false} SuccessesArrive(c: Config, b: Sys, u: Sys, x: Side, e: Env) returns (u': Sys)
    requires Leads(c, b, u) && u.up.At(x) != [] && Successes(u, x)
    requires u.pair.neg.Some? && u.pair.neg.value.DirectProbe? && ResultOf(u.pair.neg.value, x.Other()).None?
    ensures Leads(c, b, u')
    ensures u' == u.(pair := u.pair.(neg := Some(WithSuccess(u.pair.neg.value, x))), up := u.up.Put(x, []))
    decreases |u.up.At(x)|
  {
    hide Leads, Step;
    SuccessKept(c, u.pair, x, e);
    assert u.up.At(x)[0] == DirectResult(x, true);
    var u1 := Extends(c, b, u, DeliverUp(x, e));
    assert u1.down == Both(u.down.lo + [], u.down.hi + []) && u.down.lo + [] == u.down.lo
           && u.down.hi + [] == u.down.hi;
    if u1.up.At(x) == [] {
      u' := u1;
    } else {
      assert forall i :: 0 <= i < |u1.up.At(x)| ==> u1.up.At(x)[i] == u.up.At(x)[i + 1];
      u' := SuccessesArrive(c, b, u1, x, e);
    }
  }

  /** The second success decides. */
  lemma SuccessDecides(c: Config, u: Sys, x: Side, e: Env)
    requires Sound(u.pair) && u.up.At(x) != [] && u.up.At(x)[0] == DirectResult(x, true)
    requires u.pair.neg.Some? && u.pair.neg.value.DirectProbe? && ResultOf(u.pair.neg.value, x.Other()) == Some(true)
    ensures Switches(c, u, DeliverUp(x, e)) && Next(c, u, DeliverUp(x, e)).past == u.past
  {
    var s' := Step(c, u.pair, Timed(e, DirectResult(x, true)));
    var v := ProbeVerdict(SwitchDirect);
    assert s'.log == u.pair.log + [Sent(Lo, v, u.pair.connLo), Sent(Hi, v, u.pair.connHi)];
    assert Added(u.pair, s')[0].body == v;
  }

  // ----- a probe that goes through -----

  predicate SlotHolds(y: Sys, x: Side, id: nat, e: Entry) {
    y.agents.At(x).slot == Some(id) && id in y.agents.At(x).entries && y.agents.At(x).entries[id] == e
  }

  function FirstEntry(r: Ready): Entry { Entry(r.udpPort, r.nonce, None, false, true) }

  /** End x handles its start. */
  lemma Starts(c: Config, b: Sys, u: Sys, x: Side) returns (u': Sys, r: Ready, id: nat)
    requires Leads(c, b, u) && u.pair.neg.Some? && u.down.At(x) == [ProbeDirectStart] && u.up.At(x) == []
    ensures Leads(c, b, u') && u'.pair == u.pair && u'.down == u.down.Put(x, [])
    ensures u'.up == u.up.Put(x, [DirectReady(x, r)])
    ensures SlotHolds(u', x, id, FirstEntry(r)) && u'.agents.At(x.Other()) == u.agents.At(x.Other())
    ensures u'.past.flying == u.past.flying && u'.past.got == u.past.got
  {
    hide Leads;
    var w := PickWorld(u, x);
    r, id := Ready(w.port, w.nonce), w.id;
    u' := Extends(c, b, u, DeliverDown(x, w));
    assert u.down.At(x)[1..] == [] && u.up.At(x) + [DirectReady(x, r)] == [DirectReady(x, r)];
  }

  lemma FirstReady(c: Config, s: PairState, x: Side, e: Env, r: Ready)
    requires s.neg.Some? && s.neg.value.DirectProbe? && s.neg.value.readyA.None? && s.neg.value.readyB.None?
    ensures var s' := Step(c, s, Timed(e, DirectReady(x, r)));
            && s' == s.(neg := Some(if x.Lo? then s.neg.value.(readyA := Some(r)) else s.neg.value.(readyB := Some(r))))
            && Added(s, s') == []
  {
  }

  /** A clock and tables in which both peers are known. */
  function KnownEnv(now: nat): Env {
    Env(now, Some(Info("", "")), Some(Info("", "")), true, true, true)
  }

  function GoBody(r: Ready): Body { ProbeDirectGo("", r.udpPort, r.nonce) }

  function Crossing(n: Neg, now: nat, r1: Ready, r2: Ready): Neg
    requires n.DirectProbe?
  {
    DirectProbe(n.startedAt, Some(Timer(ResultTimeout, now + DIRECT_RESULT_TIMEOUT)), Some(r1), Some(r2), n.resultA,
                n.resultB)
  }

  lemma SecondReady(c: Config, s: PairState, now: nat, r1: Ready, r2: Ready)
    requires Sound(s) && s.neg.Some? && s.neg.value.DirectProbe? && s.neg.value.readyA == Some(r1)
    ensures var s' := Step(c, s, Timed(KnownEnv(now), DirectReady(Hi, r2)));
            && s'.neg == Some(Crossing(s.neg.value, now, r1, r2))
            && s' == s.(neg := s'.neg, log := s'.log)
            && Added(s, s') == [Sent(Lo, GoBody(r2), true), Sent(Hi, GoBody(r1), true)]
  {
  }

  /** Both ready messages arrive, and each end is sent what the other announced. */
  lemma ReadiesCross(c: Config, b: Sys, u: Sys, now: nat, r1: Ready, r2: Ready) returns (u': Sys)
    requires Leads(c, b, u) && Sound(u.pair) && u.down == Both([], [])
    requires u.pair.neg.Some? && u.pair.neg.value.DirectProbe?
    requires u.pair.neg.value.readyA.None? && u.pair.neg.value.readyB.None?
    requires u.up == Both([DirectReady(Lo, r1)], [DirectReady(Hi, r2)])
    ensures Leads(c, b, u') && u'.up == Both([], []) && u'.down == Both([GoBody(r2)], [GoBody(r1)])
    ensures u'.agents == u.agents && u'.past == u.past && Sound(u'.pair)
    ensures u'.pair == u.pair.(neg := Some(Crossing(u.pair.neg.value, now, r1, r2)), log := u'.pair.log)
  {
    hide Leads, Step, Sound, Added;
    var e := KnownEnv(now);
    FirstReady(c, u.pair, Lo, e, r1);
    SoundStep(c, u.pair, Timed(e, DirectReady(Lo, r1)));
    var u1 := Extends(c, b, u, DeliverUp(Lo, e));
    assert u.up.lo[1..] == [] && u1.up == Both([], [DirectReady(Hi, r2)]) && u1.down == Both([], []);
    assert u1.up.hi[1..] == [];
    SecondReady(c, u1.pair, now, r1, r2);
    SoundStep(c, u1.pair, Timed(e, DirectReady(Hi, r2)));
    u' := Extends(c, b, u1, DeliverUp(Hi, e));
    DeliveredTwo(Sent(Lo, GoBody(r2), true), Sent(Hi, GoBody(r1), true), Lo);
    DeliveredTwo(Sent(Lo, GoBody(r2), true), Sent(Hi, GoBody(r1), true), Hi);
    var p, q: seq<Body> := [GoBody(r2)], [GoBody(r1)];
    assert p + [] == p && [] + p == p && [] + q == q;
    assert u'.down.lo == u1.down.lo + p && u'.down.hi == u1.down.hi + q;
  }

  /** End x handles its go: it waits for the other's nonce, and its own goes out to the other's port. */
  lemma Goes(c: Config, b: Sys, u: Sys, x: Side, id: nat, mine: Ready, theirs: Ready) returns (u': Sys)
    requires Leads(c, b, u) && u.pair.neg.Some? && u.down.At(x) == [GoBody(theirs)]
    requires SlotHolds(u, x, id, FirstEntry(mine))
    ensures Leads(c, b, u') && u'.pair == u.pair && u'.down == u.down.Put(x, []) && u'.up == u.up
    ensures SlotHolds(u', x, id, FirstEntry(mine).(expected := Some(theirs.nonce))) && id in u'.agents.At(x).loops
    ensures u'.agents.At(x.Other()) == u.agents.At(x.Other()) && u'.past.got == u.past.got
    ensures u'.past.flying == u.past.flying + {Datagram(x, "", theirs.udpPort, mine.nonce)}
  {
    hide Leads;
    var w := PickWorld(u, x);
    u' := Extends(c, b, u, DeliverDown(x, w));
    assert u.down.At(x)[1..] == [] && u.up.At(x) + [] == u.up.At(x);
  }

  /** The probe just opened, with nothing old under way, goes through up to where either end can hear the other. */
  lemma ProbeGoes(c: Config, b: Sys, u: Sys, now: nat) returns (u': Sys)
    requires Leads(c, b, u) && Sound(u.pair) && u.pair.neg.Some? && u.pair.neg.value.DirectProbe?
    requires u.pair.neg.value.readyA.None? && u.pair.neg.value.readyB.None?
    requires u.down == Both([ProbeDirectStart], [ProbeDirectStart]) && u.up == Both([], [])
    ensures Leads(c, b, u') && Sound(u'.pair) && u'.down == Both([], []) && u'.up == Both([], [])
    ensures StaleLoop(u', Lo) && StaleLoop(u', Hi) && u'.past.got == u.past.got
    ensures exists r1, r2 :: u'.pair == u.pair.(neg := Some(Crossing(u.pair.neg.value, now, r1, r2)),
                                                log := u'.pair.log)
  {
    hide Leads, Sound, Crossing;
    var u1, r1, id1 := Starts(c, b, u, Lo);
    var u2, r2, id2 := Starts(c, b, u1, Hi);
    var u3 := ReadiesCross(c, b, u2, now, r1, r2);
    var u4 := Goes(c, b, u3, Lo, id1, r1, r2);
    u' := Goes(c, b, u4, Hi, id2, r2, r1);
    Hearing(u', Lo, id1, Datagram(Hi, "", r1.udpPort, r2.nonce));
    Hearing(u', Hi, id2, Datagram(Lo, "", r2.udpPort, r1.nonce));
  }

  lemma Hearing(y: Sys, x: Side, id: nat, d: Datagram)
    requires var a := y.agents.At(x);
             && id in a.loops && id in a.entries && a.entries[id].open
             && d in y.past.flying && d.port == a.entries[id].port && a.entries[id].expected == Some(d.nonce)
    ensures StaleLoop(y, x)
  {
    assert StaleEntry(y.past, y.agents.At(x).entries[id]);
  }

  // ----- exactly when evidence can be stale -----

  /** A direct probe has just been opened, and nothing else is under way but successes of earlier probes. */
  predicate OpenedAmidSuccesses(b: Sys) {
    JustOpened(b) && b.down == Both([ProbeDirectStart], [ProbeDirectStart]) && Successes(b, Lo) && Successes(b, Hi)
  }

  /** A success is under way, and no error before it. */
  predicate HasSuccess(q: seq<Event>) {
    exists i :: 0 <= i < |Live(q)| && Live(q)[i].DirectResult? && Live(q)[i].success
  }

  /** End x can report a success without any part in the probe just opened. */
  ghost predicate Leftover(b: Sys, x: Side) {
    HasSuccess(b.up.At(x)) || StaleLoop(b, x)
  }

  /** No ready message is under way from end x, unless behind an error, nor a go to it; anything else may be, the
      start of the probe just opened being the last message to it. */
  predicate Mixed(b: Sys, x: Side) {
    var down, up := b.down.At(x), b.up.At(x);
    && down != [] && down[|down| - 1] == ProbeDirectStart && (forall i :: 0 <= i < |down| ==> !down[i].ProbeDirectGo?)
    && Tame(up)
  }

  predicate Tame(q: seq<Event>) { forall i :: 0 <= i < |Live(q)| ==> !Live(q)[i].DirectReady? }

  /** End x has only received what was on the wire at b. */
  predicate HeardOnlyOld(b: Sys, y: Sys, x: Side) {
    forall d :: d in y.past.got.At(x) ==> d in b.past.got.At(x) || d in b.past.flying
  }

  lemma OldIsNotFresh(b: Sys, y: Sys, x: Side)
    requires Good(b) && HeardOnlyOld(b, y, x)
    ensures !Fresh(b, FactsOf(y), x)
  {
    hide Genuine;
    forall d | d in b.past.flying ensures d.nonce in b.past.issued { FlyingIsIssued(b, d); }
    assert forall d :: Genuine(FactsOf(y), x, d) ==> d in y.past.got.At(x) by { GenuineIsReceived(FactsOf(y), x); }
    assert b.past.got.At(x) <= b.past.flying;
  }

  lemma GenuineIsReceived(f: Facts, x: Side)
    ensures forall d :: Genuine(f, x, d) ==> d in f.past.got.At(x)
  {
  }

  /** An end with a leftover has its success on the way, having heard nothing new. */
  lemma LeftoverSpeaks(c: Config, b: Sys, u: Sys, x: Side) returns (u': Sys)
    requires Leads(c, b, u) && u.pair.neg.Some? && Successes(u, x) && Leftover(u, x)
    ensures Leads(c, b, u') && u'.pair == u.pair && u'.down == u.down && Successes(u', x) && u'.up.At(x) != []
    ensures u'.up.At(x.Other()) == u.up.At(x.Other()) && u'.agents.At(x.Other()) == u.agents.At(x.Other())
    ensures u'.past.issued == u.past.issued && u'.past.flying == u.past.flying
    ensures u'.past.got.At(x.Other()) == u.past.got.At(x.Other()) && HeardOnlyOld(u, u', x)
  {
    hide Leads, StaleLoop;
    u' := u;
    if u.up.At(x) == [] { u' := LoopSpeaks(c, b, u, x); }
  }

  lemma SameLoop(y: Sys, y': Sys, x: Side)
    requires y'.agents.At(x) == y.agents.At(x) && y'.past.flying == y.past.flying
    ensures StaleLoop(y', x) <==> StaleLoop(y, x)
  {
  }

  /** With leftovers at both ends the verdict comes at once. */
  lemma TwoLeftovers(c: Config, b: Sys) returns (y: Sys, a: Act)
    requires Good(b) && OpenedAmidSuccesses(b) && Leftover(b, Lo) && Leftover(b, Hi)
    ensures Leads(c, b, y) && Switches(c, y, a)
    ensures !Fresh(b, FactsOf(Next(c, y, a)), Lo) && !Fresh(b, FactsOf(Next(c, y, a)), Hi)
  {
    hide Leads, StaleLoop, Fresh, Next, Switches, Sound, GoodNeg, GoodLog, GoodPast, GoodEnd;
    var e := KnownEnv(0);
    LeadsSelf(c, b);
    var u1 := LeftoverSpeaks(c, b, b, Lo);
    SameLoop(b, u1, Hi);
    var u2 := LeftoverSpeaks(c, b, u1, Hi);
    y := SuccessesArrive(c, b, u2, Lo, e);
    a := DeliverUp(Hi, e);
    StillSound(b.pair, y.pair);
    SuccessDecides(c, y, Hi, e);
    OldIsNotFresh(b, Next(c, y, a), Lo);
    OldIsNotFresh(b, Next(c, y, a), Hi);
  }

  lemma StillSound(s: PairState, s': PairState)
    requires Sound(s) && s.neg.Some? && s.neg.value.DirectProbe? && s.neg.value.resultA.None?
    requires s.neg.value.resultB.None?
    requires s' == s.(neg := Some(WithSuccess(s.neg.value, Lo))) || s' == s.(neg := Some(WithSuccess(s.neg.value, Hi)))
    ensures Sound(s')
  {
  }

  // ----- one leftover is enough -----

  /** While the other end has not reported, an end's messages end nothing: the last result is kept. */
  lemma ResultKept(c: Config, s: PairState, x: Side, ev: Event, e: Env)
    requires s.neg.Some? && s.neg.value.DirectProbe? && ResultOf(s.neg.value, x.Other()).None?
    requires FromAgent(ev) && ev.from == x && !ev.DirectReady? && !ev.ProbeError?
    ensures var s' := Step(c, s, Timed(e, ev));
            && s' == s.(neg := s'.neg) && Added(s, s') == []
            && s'.neg.Some? && s'.neg.value.DirectProbe? && ResultOf(s'.neg.value, x.Other()).None?
            && s'.neg.value.readyA == s.neg.value.readyA && s'.neg.value.readyB == s.neg.value.readyB
            && (ev.DirectResult? && ev.success ==> ResultOf(s'.neg.value, x) == Some(true))
  {
  }

  lemma HeadOf(y: Sys, x: Side)
    requires Good(y) && y.up.At(x) != []
    ensures FromAgent(y.up.At(x)[0]) && y.up.At(x)[0].from == x
  {
    hide GoodLog, GoodPast, GoodNeg, GoodDowns, GoodAgent, Sound;
    assert GoodUp(FactsOf(y), x, y.up.At(x)[0]);
  }

  lemma OneSuccess(x: Side)
    ensures HasSuccess([DirectResult(x, true)]) && Tame([DirectResult(x, true)])
  {
    var q := [DirectResult(x, true)];
    assert Live(q) == [q[0]] + Live(q[1..]) && q[1..] == [];
    assert Live(q)[0] == q[0];
  }

  lemma LiveHead(q: seq<Event>)
    requires HasSuccess(q) && Tame(q)
    ensures q != [] && !q[0].ProbeError? && !q[0].DirectReady? && Tame(q[1..])
    ensures !(q[0].DirectResult? && q[0].success) ==> HasSuccess(q[1..])
  {
    var i :| 0 <= i < |Live(q)| && Live(q)[i].DirectResult? && Live(q)[i].success;
    assert Live(q) == [q[0]] + Live(q[1..]) && Live(q)[0] == q[0];
    forall k | 0 <= k < |Live(q[1..])| ensures Live(q[1..])[k] == Live(q)[k + 1] {}
    if i > 0 { assert Live(q[1..])[i - 1] == Live(q)[i]; }
  }

  /** The server takes what is under way from end x up to a success, which it keeps. */
  lemma {:induction false} SuccessTaken(c: Config, b: Sys, u: Sys, x: Side) returns (u': Sys)
    requires Good(u) && Leads(c, b, u) && HasSuccess(u.up.At(x)) && Tame(u.up.At(x))
    requires u.pair.neg.Some? && u.pair.neg.value.DirectProbe? && ResultOf(u.pair.neg.value, x.Other()).None?
    ensures Good(u') && Leads(c, b, u') && u'.down == u.down && u'.agents == u.agents && u'.past == u.past
    ensures u'.up.At(x.Other()) == u.up.At(x.Other())
    ensures u'.pair.neg.Some? && u'.pair.neg.value.DirectProbe? && ResultOf(u'.pair.neg.value, x) == Some(true)
    ensures u'.pair.neg.value.readyA == u.pair.neg.value.readyA && u'.pair.neg.value.readyB == u.pair.neg.value.readyB
    decreases |u.up.At(x)|
  {
    hide Leads, Step, Good;
    var e, q := KnownEnv(0), u.up.At(x);
    LiveHead(q);
    HeadOf(u, x);
    ResultKept(c, u.pair, x, q[0], e);
    ActKeepsGood(c, u, DeliverUp(x, e));
    u' := Extends(c, b, u, DeliverUp(x, e));
    assert u.down.lo + [] == u.down.lo && u.down.hi + [] == u.down.hi;
    if !(q[0].DirectResult? && q[0].success) {
      assert u'.up.At(x) == q[1..];
      u' := SuccessTaken(c, b, u', x);
    }
  }

  /** End x handles what it was sent before the probe opened. */
  lemma {:induction false} OldHandled(c: Config, b: Sys, u: Sys, x: Side) returns (u': Sys)
    requires Good(u) && Leads(c, b, u) && u.pair.neg.Some? && u.down.At(x) != []
    requires u.down.At(x)[|u.down.At(x)| - 1] == ProbeDirectStart
    requires forall i :: 0 <= i < |u.down.At(x)| ==> !u.down.At(x)[i].ProbeDirectGo?
    ensures Good(u') && Leads(c, b, u') && u'.pair == u.pair && u'.down == u.down.Put(x, [ProbeDirectStart])
    ensures u'.past.flying == u.past.flying && u'.past.got == u.past.got
    decreases |u.down.At(x)|
  {
    hide Leads, Good, OnMessage, Reply;
    u' := u;
    var q := u.down.At(x);
    if |q| > 1 {
      var w := PickWorld(u, x);
      ActKeepsGood(c, u, DeliverDown(x, w));
      u' := Extends(c, b, u, DeliverDown(x, w));
      assert u'.down.At(x) == q[1..] && q[1..][|q| - 2] == q[|q| - 1];
      u' := OldHandled(c, b, u', x);
    } else {
      assert q == [ProbeDirectStart];
    }
  }

  /** What is under way from end x to the server is lost. */
  lemma UpLost(c: Config, b: Sys, u: Sys, x: Side) returns (u': Sys)
    requires Good(u) && Leads(c, b, u) && u.pair.neg.Some?
    ensures Good(u') && Leads(c, b, u') && u' == u.(up := u.up.Put(x, []))
  {
    hide Leads, Good;
    ActKeepsGood(c, u, CutUp(x));
    u' := Extends(c, b, u, CutUp(x));
  }

  /** An end with a leftover has the server keep a success, having heard nothing new. */
  lemma LeftoverIsKept(c: Config, b: Sys, x: Side) returns (u': Sys)
    requires Good(b) && JustOpened(b) && Mixed(b, x) && Leftover(b, x)
    ensures Good(u') && Leads(c, b, u') && u'.down == b.down && HeardOnlyOld(b, u', x)
    ensures u'.pair.neg.Some? && u'.pair.neg.value.DirectProbe? && ResultOf(u'.pair.neg.value, x) == Some(true)
    ensures u'.pair.neg.value.readyA.None? && u'.pair.neg.value.readyB.None?
  {
    hide Leads, Good, StaleLoop;
    LeadsSelf(c, b);
    u' := b;
    if !HasSuccess(b.up.At(x)) {
      u' := UpLost(c, b, b, x);
      SameLoop(b, u', x);
      u' := LoopSpeaks(c, b, u', x);
      OneSuccess(x);
      StillGood(c, b, u');
    }
    u' := SuccessTaken(c, b, u', x);
  }

  lemma {:induction false} GoodOn(c: Config, b: Sys, acts: seq<Act>)
    requires Good(b) && Reachable(c, b, acts)
    ensures Good(After(c, b, acts))
    decreases |acts|
  {
    if acts != [] {
      GoodOn(c, b, acts[..|acts| - 1]);
      hide Next, Good, Enabled;
      ActKeepsGood(c, After(c, b, acts[..|acts| - 1]), acts[|acts| - 1]);
    }
  }

  lemma StillGood(c: Config, b: Sys, y: Sys)
    requires Good(b) && Leads(c, b, y)
    ensures Good(y)
  {
    hide Good;
    var acts: seq<Act> :| Reachable(c, b, acts) && During(c, b, acts) && After(c, b, acts) == y;
    GoodOn(c, b, acts);
  }

  /** What else was under way is handled or lost, and the probe is ready to go. */
  lemma OthersClear(c: Config, b: Sys, u: Sys) returns (u': Sys)
    requires Good(u) && Leads(c, b, u) && u.pair.neg.Some? && u.down == b.down && Mixed(b, Lo) && Mixed(b, Hi)
    ensures Good(u') && Leads(c, b, u') && u'.pair == u.pair && u'.past.got == u.past.got
    ensures u'.down == Both([ProbeDirectStart], [ProbeDirectStart]) && u'.up == Both([], [])
  {
    hide Leads, Good;
    u' := OldHandled(c, b, u, Lo);
    u' := OldHandled(c, b, u', Hi);
    u' := UpLost(c, b, u', Lo);
    u' := UpLost(c, b, u', Hi);
  }

  /** A leftover goes first, and the probe goes through for the other end. */
  lemma LeftoverDecides(c: Config, b: Sys, x: Side) returns (y: Sys, a: Act)
    requires Good(b) && JustOpened(b) && Mixed(b, Lo) && Mixed(b, Hi) && Leftover(b, x)
    ensures Leads(c, b, y) && Switches(c, y, a) && !Fresh(b, FactsOf(Next(c, y, a)), x)
  {
    hide Leads, StaleLoop, Fresh, Next, Switches, Good, Crossing, Leftover, JustOpened, Mixed;
    var e, z := KnownEnv(0), x.Other();
    assert x == Lo || x == Hi;
    var u1 := LeftoverIsKept(c, b, x);
    var u2 := OthersClear(c, b, u1);
    IsSound(u2);
    var u3 := ProbeGoes(c, b, u2, 0);
    y := LoopSpeaks(c, b, u3, z);
    a := DeliverUp(z, e);
    ResultsCross(u2.pair.neg.value, u3.pair, x);
    SuccessDecides(c, y, z, e);
    OldIsNotFresh(b, Next(c, y, a), x);
  }

  lemma ResultsCross(n: Neg, s: PairState, x: Side)
    requires n.DirectProbe? && exists now, r1, r2 :: s.neg == Some(Crossing(n, now, r1, r2))
    ensures s.neg.value.DirectProbe? && ResultOf(s.neg.value, x) == ResultOf(n, x)
  {
  }

  lemma NothingLeftIsOld(b: Sys, x: Side)
    requires Mixed(b, x) && !Leftover(b, x)
    ensures NothingOld(b, x) && !StaleLoop(b, x)
  {
  }

  /** Evidence belongs to the probe it decides if and only if nothing is left over: when a direct probe opens with
      neither ready messages nor gos of earlier ones under way (or ready messages behind an error), all its
      switch-direct verdicts stand on fresh evidence at both ends exactly if no success is under way either, unless
      behind an error, and no running go loop at either end has seen, or can be shown by a datagram already sent, the
      nonce it waits for. */
  lemma {:induction false} FreshIffNothingLeft(c: Config, b: Sys)
    requires Good(b) && JustOpened(b) && Mixed(b, Lo) && Mixed(b, Hi)
    ensures AlwaysFresh(c, b) <==> !Leftover(b, Lo) && !Leftover(b, Hi)
  {
    hide Fresh, StaleLoop, Good, Switches, Leads, Next, Leftover, Mixed, JustOpened;
    if !Leftover(b, Lo) && !Leftover(b, Hi) {
      NothingLeftIsOld(b, Lo);
      NothingLeftIsOld(b, Hi);
      FreshIfNothingOld(c, b);
    } else {
      var y, a := LeftoverDecides(c, b, if Leftover(b, Lo) then Lo else Hi);
    }
  }

  // ----- read at the opening, in runs from the start -----

  /** The server opens a direct probe at y. */
  predicate OpensDirect(c: Config, y: Sys, t: Timed) {
    y.pair.neg.None? && t.ev.CheckDirect? && Step(c, y.pair, t).neg.Some?
  }

  lemma OpeningStarts(c: Config, y: Sys, t: Timed)
    requires OpensDirect(c, y, t)
    ensures JustOpened(ServerMoves(c, y, t))
    ensures Added(y.pair, Step(c, y.pair, t)) == [Sent(Lo, ProbeDirectStart, true), Sent(Hi, ProbeDirectStart, true)]
  {
    var s := y.pair;
    assert Step(c, s, t).log == s.log + [Sent(Lo, ProbeDirectStart, true), Sent(Hi, ProbeDirectStart, true)];
  }

  lemma OpeningMeans(c: Config, y: Sys, t: Timed)
    requires OpensDirect(c, y, t)
    ensures var b := ServerMoves(c, y, t);
            && JustOpened(b) && b.up == y.up && b.agents == y.agents && b.past == y.past
            && b.down == Both(y.down.lo + [ProbeDirectStart], y.down.hi + [ProbeDirectStart])
  {
    hide Step, JustOpened;
    OpeningStarts(c, y, t);
    var lo, hi := Sent(Lo, ProbeDirectStart, true), Sent(Hi, ProbeDirectStart, true);
    DeliveredTwo(lo, hi, Lo);
    DeliveredTwo(lo, hi, Hi);
    var p := [ProbeDirectStart];
    assert p + [] == p && [] + p == p;
  }

  /** Nothing of earlier probes that names a nonce is under way at end x, unless behind an error. */
  predicate TameEnd(y: Sys, x: Side) {
    (forall i :: 0 <= i < |y.down.At(x)| ==> !y.down.At(x)[i].ProbeDirectGo?) && Tame(y.up.At(x))
  }

  /** In every run from the start: a direct probe that opens with neither ready messages nor gos of earlier probes
      under way is always decided on fresh evidence if and only if no success is and no running loop is stale. */
  lemma {:induction false} FreshIffNothingLeftFromStart(c: Config, acts: seq<Act>, t: Timed)
    requires Reachable(c, START, acts) && OpensDirect(c, After(c, START, acts), t)
    requires TameEnd(After(c, START, acts), Lo) && TameEnd(After(c, START, acts), Hi)
    ensures var y := After(c, START, acts);
            AlwaysFresh(c, ServerMoves(c, y, t)) <==> !Leftover(y, Lo) && !Leftover(y, Hi)
  {
    GoodRun(c, acts);
    hide Reachable, After;
    ReadAtOpening(c, After(c, START, acts), t);
  }

  lemma ReadAtOpening(c: Config, y: Sys, t: Timed)
    requires Good(y) && OpensDirect(c, y, t) && TameEnd(y, Lo) && TameEnd(y, Hi)
    ensures AlwaysFresh(c, ServerMoves(c, y, t)) <==> !Leftover(y, Lo) && !Leftover(y, Hi)
  {
    hide Good, JustOpened, OpensDirect, AlwaysFresh, StaleLoop, ServerMoves;
    var b := ServerMoves(c, y, t);
    OpeningMeans(c, y, t);
    OpeningGood(c, y, t);
    SameLoop(y, b, Lo);
    SameLoop(y, b, Hi);
    MixedAtOpening(y, b, Lo);
    MixedAtOpening(y, b, Hi);
    FreshIffNothingLeft(c, b);
  }

  lemma MixedAtOpening(y: Sys, b: Sys, x: Side)
    requires TameEnd(y, x) && b.up.At(x) == y.up.At(x) && b.down.At(x) == y.down.At(x) + [ProbeDirectStart]
    ensures Mixed(b, x)
  {
  }

  lemma OpeningGood(c: Config, y: Sys, t: Timed)
    requires Good(y) && OpensDirect(c, y, t)
    ensures Good(ServerMoves(c, y, t))
  {
    hide Good, Step;
    ServerKeepsGood(c, y, t);
  }

  // ----- such leftovers do occur -----

  /** Some run from the start ends at y. */
  ghost predicate Reaches(c: Config, y: Sys) {
    exists acts: seq<Act> :: Reachable(c, START, acts) && After(c, START, acts) == y
  }

  lemma ReachesNext(c: Config, y: Sys, a: Act) returns (y': Sys)
    requires Reaches(c, y) && Enabled(y, a)
    ensures y' == Next(c, y, a) && Reaches(c, y')
  {
    hide Next, Enabled;
    var acts: seq<Act> :| Reachable(c, START, acts) && After(c, START, acts) == y;
    AfterOneMore(c, START, acts, a);
    y' := Next(c, y, a);
  }

  lemma {:induction false} AfterAppend(c: Config, b: Sys, p: seq<Act>, q: seq<Act>)
    requires Reachable(c, b, p) && Reachable(c, After(c, b, p), q)
    ensures Reachable(c, b, p + q) && After(c, b, p + q) == After(c, After(c, b, p), q)
    decreases |q|
  {
    hide Next, Enabled;
    if q == [] {
      assert p + q == p;
    } else {
      var front, last := q[..|q| - 1], q[|q| - 1];
      assert p + q == p + front + [last];
      AfterAppend(c, b, p, front);
      AfterOneMore(c, b, p + front, last);
    }
  }

  lemma ReachesOn(c: Config, b: Sys, y: Sys)
    requires Reaches(c, b) && Leads(c, b, y)
    ensures Reaches(c, y)
  {
    hide Next, Enabled;
    var p: seq<Act> :| Reachable(c, START, p) && After(c, START, p) == b;
    var q: seq<Act> :| Reachable(c, b, q) && During(c, b, q) && After(c, b, q) == y;
    AfterAppend(c, START, p, q);
  }

  lemma ReachesGood(c: Config, y: Sys)
    requires Reaches(c, y)
    ensures Good(y)
  {
    hide Good, After, Reachable;
    var acts: seq<Act> :| Reachable(c, START, acts) && After(c, START, acts) == y;
    GoodRun(c, acts);
  }

  /** Both ends on relay, connected, unforced, with a health record and nothing else. */
  predicate ReadyForDirect(s: PairState, last: nat, backoff: nat) {
    && s.BothConnected() && s.neg.None? && RelayPair(s) && s.health.Some?
    && s.health.value.lastDirectProbeAt == last && s.health.value.backoff == backoff
  }

  lemma DirectOpens(c: Config, y: Sys, last: nat, backoff: nat, now: nat)
    requires ReadyForDirect(y.pair, last, backoff) && now >= last + backoff
    ensures OpensDirect(c, y, Timed(KnownEnv(now), CheckDirect))
    ensures var s' := Step(c, y.pair, Timed(KnownEnv(now), CheckDirect));
            && s' == y.pair.(health := Some(y.pair.health.value.(lastDirectProbeAt := now)), neg := s'.neg,
                             log := s'.log)
  {
  }

  lemma StartReached(c: Config)
    ensures Reaches(c, START)
  {
    assert Reachable(c, START, []) && After(c, START, []) == START;
  }

  /** A step that sends nothing, with nothing under way. */
  lemma QuietStep(c: Config, y: Sys, t: Timed) returns (y': Sys)
    requires Reaches(c, y) && y.down == Both([], []) && y.up == Both([], []) && !FromAgent(t.ev)
    requires Step(c, y.pair, t).log == y.pair.log
    ensures Reaches(c, y') && y' == y.(pair := Step(c, y.pair, t))
  {
    hide Reaches, Step;
    y' := ReachesNext(c, y, ServerAct(t));
    assert Added(y.pair, Step(c, y.pair, t)) == [];
  }

  const RELAYED: PairState := INIT.(connLo := true, connHi := true, rowLo := Some(Row(RelayPath, None)),
                                    rowHi := Some(Row(RelayPath, None)))

  lemma RelaySteps(c: Config, e: Env)
    ensures Step(c, INIT, Timed(e, Connect(Lo))) == INIT.(connLo := true)
    ensures Step(c, INIT.(connLo := true), Timed(e, Connect(Hi))) == INIT.(connLo := true, connHi := true)
    ensures var s := INIT.(connLo := true, connHi := true);
            && Step(c, s, Timed(e, Upsert(Lo, RelayPath))) == s.(rowLo := Some(Row(RelayPath, None)))
            && Step(c, s.(rowLo := Some(Row(RelayPath, None))), Timed(e, Upsert(Hi, RelayPath))) == RELAYED
    ensures var s' := Step(c, RELAYED, Timed(e, Report(Lo, RelayPath, true)));
            s' == RELAYED.(health := s'.health) && ReadyForDirect(s', 0, c.init)
  {
  }

  /** Two agents connect and report that they route through the relay. */
  lemma RelayComesUp(c: Config) returns (y: Sys)
    ensures Reaches(c, y) && ReadyForDirect(y.pair, 0, c.init) && y.down == Both([], []) && y.up == Both([], [])
  {
    hide Reaches, Step, ReadyForDirect;
    var e := KnownEnv(0);
    StartReached(c);
    RelaySteps(c, e);
    y := QuietStep(c, START, Timed(e, Connect(Lo)));
    y := QuietStep(c, y, Timed(e, Connect(Hi)));
    y := QuietStep(c, y, Timed(e, Upsert(Lo, RelayPath)));
    y := QuietStep(c, y, Timed(e, Upsert(Hi, RelayPath)));
    y := QuietStep(c, y, Timed(e, Report(Lo, RelayPath, true)));
  }

  /** The result timer ends the probe while both successes are under way. */
  lemma TimerStays(c: Config, s: PairState, now: nat)
    requires Sound(s) && s.neg.Some? && s.neg.value.DirectProbe? && s.neg.value.timer == Some(Timer(ResultTimeout, now))
    ensures var s' := Step(c, s, Timed(KnownEnv(now), TimerFires));
            && s' == DoubleBackoff(s.(neg := None, log := s'.log))
            && Added(s, s') == [Sent(Lo, ProbeVerdict(Stay), true), Sent(Hi, ProbeVerdict(Stay), true)]
  {
    var s' := Step(c, s, Timed(KnownEnv(now), TimerFires));
    assert s'.log == s.log + [Sent(Lo, ProbeVerdict(Stay), true), Sent(Hi, ProbeVerdict(Stay), true)];
  }

  /** The agents take note of the verdict. */
  lemma HearsStay(c: Config, y: Sys, x: Side) returns (y': Sys)
    requires Reaches(c, y) && y.down.At(x) == [ProbeVerdict(Stay)]
    ensures Reaches(c, y') && y'.pair == y.pair && y'.up == y.up && y'.down == y.down.Put(x, [])
  {
    hide Reaches;
    var w := PickWorld(y, x);
    y' := ReachesNext(c, y, DeliverDown(x, w));
    assert y.down.At(x)[1..] == [] && y.up.At(x) + [] == y.up.At(x);
  }

  /** A first probe succeeds at both ends, but its result timer fires before either success arrives. */
  lemma SuccessesComeLate(c: Config) returns (y: Sys, last: nat)
    ensures Reaches(c, y) && ReadyForDirect(y.pair, last, Min(c.init * 2, BACKOFF_MAX))
    ensures y.down == Both([], []) && y.up == Both([DirectResult(Lo, true)], [DirectResult(Hi, true)])
  {
    hide Reaches, Step, Leads, StaleLoop, Sound, Good;
    var y0 := RelayComesUp(c);
    last := c.init;
    var t := Timed(KnownEnv(last), CheckDirect);
    DirectOpens(c, y0, 0, c.init, last);
    OpeningMeans(c, y0, t);
    var b := ReachesNext(c, y0, ServerAct(t));
    ReachesGood(c, b);
    IsSound(b);
    LeadsSelf(c, b);
    var p := [ProbeDirectStart];
    assert [] + p == p;
    var u1 := ProbeGoes(c, b, b, last);
    var u2 := LoopSpeaks(c, b, u1, Lo);
    SameLoop(u1, u2, Hi);
    var u3 := LoopSpeaks(c, b, u2, Hi);
    ReachesOn(c, b, u3);
    var due := last + DIRECT_RESULT_TIMEOUT;
    TimerStays(c, u3.pair, due);
    y := ReachesNext(c, u3, ServerAct(Timed(KnownEnv(due), TimerFires)));
    DeliveredTwo(Sent(Lo, ProbeVerdict(Stay), true), Sent(Hi, ProbeVerdict(Stay), true), Lo);
    DeliveredTwo(Sent(Lo, ProbeVerdict(Stay), true), Sent(Hi, ProbeVerdict(Stay), true), Hi);
    var v := [ProbeVerdict(Stay)];
    assert v + [] == v && [] + v == v;
    var y1 := y;
    y := HearsStay(c, y1, Lo);
    y := HearsStay(c, y, Hi);
  }

  lemma IsSound(y: Sys)
    requires Good(y)
    ensures Sound(y.pair)
  {
  }

  /** In some run of honest agents from the start, whatever the configuration, two late successes decide a later
      probe for the direct path on nothing received since it opened, at either end. */
  lemma OldSuccessesDecide(c: Config)
    ensures exists y0, t, y, a ::
              && Reaches(c, y0) && OpensDirect(c, y0, t)
              && Leads(c, ServerMoves(c, y0, t), y) && Switches(c, y, a)
              && !Fresh(ServerMoves(c, y0, t), FactsOf(Next(c, y, a)), Lo)
              && !Fresh(ServerMoves(c, y0, t), FactsOf(Next(c, y, a)), Hi)
  {
    hide Reaches, Step, Leads, StaleLoop, Good, Fresh, Switches, Next, OpensDirect, JustOpened;
    var y0, last := SuccessesComeLate(c);
    var now := last + Min(c.init * 2, BACKOFF_MAX);
    var t := Timed(KnownEnv(now), CheckDirect);
    DirectOpens(c, y0, last, Min(c.init * 2, BACKOFF_MAX), now);
    OpeningMeans(c, y0, t);
    ReachesGood(c, y0);
    OpeningGood(c, y0, t);
    var p := [ProbeDirectStart];
    assert [] + p == p;
    OneSuccess(Lo);
    OneSuccess(Hi);
    var y, a := TwoLeftovers(c, ServerMoves(c, y0, t));
  }
}
