/** When nothing of a probe is left on the agents once the dust has settled. */
module Quiescence {
  import opened Common
  import opened PairMachine
  import opened AgentMachine
  import opened Sessions
  import opened System
  import opened Agreement

  /** The peer is not frozen and no probe socket is in its slot. */
  predicate Clean(a: Agent) { a.frozenAt.None? && a.slot.None? }

  /** The message ends a session for the agent. */
  predicate EndsSession(b: Body) { b.ProbeVerdict? || b.NegotiateAbort? || b.ForceMode? }

  predicate StartsProbe(b: Body) { b.ProbeRelayServe? || b.ProbeRelayCheck? || b.ProbeDirectStart? }

  function Kept(clean: bool, b: Body): bool {
    if EndsSession(b) then true else if StartsProbe(b) then false else clean
  }

  /** Whether the agent will surely be clean when it has handled the queue. */
  function CleanAfter(clean: bool, q: seq<Body>): bool
    decreases |q|
  {
    if q == [] then clean else CleanAfter(Kept(clean, q[0]), q[1..])
  }

  /** The agent at end x will be clean when it has handled what is under way to it. */
  predicate WillBeClean(y: Sys, x: Side) { CleanAfter(Clean(y.agents.At(x)), y.down.At(x)) }

  lemma {:induction false} CleanAfterAppend(clean: bool, a: seq<Body>, b: seq<Body>)
    ensures CleanAfter(clean, a + b) == CleanAfter(CleanAfter(clean, a), b)
    decreases |a|
  {
    if a == [] {
      assert a + b == b;
    } else {
      assert (a + b)[1..] == a[1..] + b;
      CleanAfterAppend(Kept(clean, a[0]), a[1..], b);
    }
  }

  lemma {:induction false} CleanAfterMonotone(clean: bool, clean': bool, q: seq<Body>)
    requires clean ==> clean'
    ensures CleanAfter(clean, q) ==> CleanAfter(clean', q)
    decreases |q|
  {
    if q != [] { CleanAfterMonotone(Kept(clean, q[0]), Kept(clean', q[0]), q[1..]); }
  }

  /** The end of a session clears the agent's side of it: unfrozen, the slot empty and its socket closed. */
  lemma SessionEndClears(a: Agent, b: Body, w: World)
    requires EndsSession(b)
    ensures var a' := OnMessage(a, b, w);
            && Clean(a') && a'.entries.Keys == a.entries.Keys
            && (a.slot.Some? && a.slot.value in a.entries ==> !a'.entries[a.slot.value].open)
            && forall id :: id in a.entries && a.slot != Some(id) ==> a'.entries[id] == a.entries[id]
  {
  }

  /** A message leaves the agent clean if it ends a session or starts nothing; and only then, if sockets can be
      bound. */
  lemma MessageCleans(a: Agent, b: Body, w: World)
    ensures Kept(Clean(a), b) ==> Clean(OnMessage(a, b, w))
    ensures w.bindOk ==> (Clean(OnMessage(a, b, w)) <==> Kept(Clean(a), b))
  {
    if EndsSession(b) { SessionEndClears(a, b, w); }
  }

  /** With no negotiation active, every connected agent is on its way to being clean. */
  predicate Settling(y: Sys) {
    && Wired(y)
    && (y.pair.neg.None? ==> forall x: Side :: y.pair.Connected(x) ==> WillBeClean(y, x))
  }

  /** The act leaves no probe behind. A new socket finds its agent clean, as one that has noticed the loss of the
      old socket is; and a peer removed in the middle of a negotiation, which is told nothing, has nothing to clear
      or is being told already. */
  predicate KeepsSettling(y: Sys, a: Act) {
    a.ServerAct? ==>
      match a.t.ev
      case Connect(x) => y.pair.neg.Some? || Clean(y.agents.At(x))
      case Purge(x) => y.pair.neg.None? || WillBeClean(y, x)
      case _ => true
  }

  /** One message to each end: a connected end x gets its own. */
  lemma BothGetOne(a: Sent, b: Sent, x: Side, clean: bool)
    requires a.to == b.to.Other() && (if a.to == x then a else b).delivered && EndsSession(a.body)
    requires EndsSession(b.body)
    ensures CleanAfter(clean, Delivered([a, b], x))
  {
    DeliveredTwo(a, b, x);
    assert Delivered([a, b], x) == [if a.to == x then a.body else b.body];
  }

  /** A step that leaves no negotiation, having ended one or forced the mode, clears every connected end. */
  lemma EndClears(s: PairState, n': Option<Neg>, m: Move, x: Side, clean: bool)
    requires s.Connected(x) && Fits(s.neg, n', m) && n'.None?
    requires m.Ends? ==> m.end.Verdict? || m.end.AbortBoth?
    requires m.Quiet? ==> clean
    ensures CleanAfter(clean, Delivered(MoveLog(s, m), x))
  {
    match m
    case Ends(end) => BothGetOne(RenderEnd(end)[0], RenderEnd(end)[1], x, clean);
    case Forces(y, target) => BothGetOne(ForceLog(s, y, target)[0], ForceLog(s, y, target)[1], x, clean);
    case EndsAndForces(y, target) =>
      var aborts := RenderEnd(AbortBoth(AdminForce));
      DeliveredAppend(aborts, ForceLog(s, y, target), x);
      CleanAfterAppend(clean, Delivered(aborts, x), Delivered(ForceLog(s, y, target), x));
      BothGetOne(ForceLog(s, y, target)[0], ForceLog(s, y, target)[1], x, CleanAfter(clean, Delivered(aborts, x)));
    case Quiet =>
  }

  lemma EndsTellBoth(c: Config, s: PairState, t: Timed)
    requires !t.ev.Close? && !t.ev.Restart? && !t.ev.Purge?
    ensures var m := MoveOf(s, Step(c, s, t), t); m.Ends? ==> m.end.Verdict? || m.end.AbortBoth?
  {
    hide Step;
  }

  lemma SameConnections(c: Config, s: PairState, t: Timed)
    requires !t.ev.Close? && !t.ev.Restart? && !t.ev.Connect?
    ensures Step(c, s, t).connLo == s.connLo && Step(c, s, t).connHi == s.connHi
  {
  }

  /** Steps that touch no socket and remove no peer leave every connected end on its way to being clean. */
  lemma OrdinaryStepSettles(c: Config, y: Sys, t: Timed, x: Side)
    requires Settling(y) && !t.ev.Connect? && !t.ev.Close? && !t.ev.Restart? && !t.ev.Purge?
    requires Step(c, y.pair, t).neg.None? && y.pair.Connected(x)
    ensures WillBeClean(ServerMoves(c, y, t), x)
  {
    hide Step, Sound, Added, Delivered, Makes, MoveOf, MoveLog, CleanAfter, Clean;
    var s' := Step(c, y.pair, t);
    var m := MoveOf(y.pair, s', t);
    StepMakesMove(c, y.pair, t);
    AddedByMove(y.pair, s', m);
    EndsTellBoth(c, y.pair, t);
    var clean := Clean(y.agents.At(x));
    EndClears(y.pair, s'.neg, m, x, CleanAfter(clean, y.down.At(x)));
    CleanAfterAppend(clean, y.down.At(x), Delivered(MoveLog(y.pair, m), x));
  }

  /** The close of a socket and the removal of a peer: the other end, if connected, is told of the end of a
      negotiation; the end itself is told nothing. */
  lemma OneSidedEnd(c: Config, s: PairState, t: Timed)
    requires Sound(s) && (t.ev.Close? || t.ev.Purge?)
    ensures var s' := Step(c, s, t);
            var x := t.ev.from;
            && s'.neg.None? && s'.Connected(x.Other()) == s.Connected(x.Other())
            && s'.Connected(x) == (s.Connected(x) && t.ev.Purge?)
            && Added(s, s') == if s.neg.Some?
               then [Sent(x.Other(), NegotiateAbort(if t.ev.Close? then WsReset else PeerRemoved), true)] else []
  {
  }

  lemma OneSidedSettles(c: Config, y: Sys, t: Timed)
    requires Settling(y) && (t.ev.Close? || t.ev.Purge?)
    ensures Settling(ServerMoves(c, y, t)) <==> KeepsSettling(y, ServerAct(t))
  {
    hide Step, Sound, Added, CleanAfter, Clean;
    var x := t.ev.from;
    SoundStep(c, y.pair, t);
    OneSidedEnd(c, y.pair, t);
    NothingToClean(Clean(y.agents.At(x)));
    var y' := ServerMoves(c, y, t);
    if y.pair.neg.Some? {
      SoundConnects(y.pair);
      var abort := Sent(x.Other(), NegotiateAbort(if t.ev.Close? then WsReset else PeerRemoved), true);
      DeliveredOne(abort, x);
      DeliveredOne(abort, x.Other());
      CleanAfterAppend(Clean(y.agents.At(x.Other())), y.down.At(x.Other()), [abort.body]);
      AbortCleans(CleanAfter(Clean(y.agents.At(x.Other())), y.down.At(x.Other())), abort.body);
      assert WillBeClean(y', x.Other());
      assert y.down.At(x) + [] == y.down.At(x);
    } else {
      assert y.down.lo + [] == y.down.lo && y.down.hi + [] == y.down.hi;
      assert y'.down.At(x.Other()) == y.down.At(x.Other());
      assert y'.pair.Connected(x) ==> y'.down.At(x) == y.down.At(x);
    }
    assert x == Lo || x == Hi;
  }

  lemma SoundConnects(s: PairState)
    requires Sound(s) && s.neg.Some?
    ensures s.connLo && s.connHi
  {
  }

  lemma NothingToClean(clean: bool)
    ensures CleanAfter(clean, []) == clean
  {
  }

  lemma AbortCleans(clean: bool, b: Body)
    requires EndsSession(b)
    ensures CleanAfter(clean, [b])
  {
  }

  lemma ConnectStep(c: Config, s: PairState, t: Timed)
    requires t.ev.Connect? || t.ev.Restart?
    ensures var s' := Step(c, s, t);
            && Added(s, s') == []
            && (t.ev.Connect? ==> s' == s.SetConnected(t.ev.from, true))
            && (t.ev.Restart? ==> !s'.connLo && !s'.connHi && s'.neg.None?)
  {
  }

  lemma ConnectSettles(c: Config, y: Sys, t: Timed)
    requires Settling(y) && (t.ev.Connect? || t.ev.Restart?)
    ensures Settling(ServerMoves(c, y, t)) <==> KeepsSettling(y, ServerAct(t))
  {
    hide Step, Sound, Added, CleanAfter, Clean;
    SoundStep(c, y.pair, t);
    ConnectStep(c, y.pair, t);
    var y' := ServerMoves(c, y, t);
    if t.ev.Connect? {
      var x := t.ev.from;
      NothingToClean(Clean(y.agents.At(x)));
      assert y'.down.At(x) == [] + [] == [];
      assert y'.down.At(x.Other()) == y.down.At(x.Other()) + [] == y.down.At(x.Other());
      assert y'.pair.Connected(x.Other()) == y.pair.Connected(x.Other());
      assert y'.pair.Connected(x) && y'.pair.neg == y.pair.neg;
      assert WillBeClean(y', x) == Clean(y.agents.At(x)) && WillBeClean(y', x.Other()) == WillBeClean(y, x.Other());
      if x.Lo? {
        assert WillBeClean(y', Hi) == WillBeClean(y, Hi);
      } else {
        assert WillBeClean(y', Lo) == WillBeClean(y, Lo);
      }
    }
  }

  lemma ServerSettles(c: Config, y: Sys, t: Timed)
    requires Settling(y)
    ensures Settling(ServerMoves(c, y, t)) <==> KeepsSettling(y, ServerAct(t))
  {
    hide Step, Sound, Settling, WillBeClean;
    if t.ev.Close? || t.ev.Purge? {
      OneSidedSettles(c, y, t);
    } else if t.ev.Connect? || t.ev.Restart? {
      ConnectSettles(c, y, t);
    } else {
      OthersSettle(c, y, t);
    }
  }

  lemma OthersSettle(c: Config, y: Sys, t: Timed)
    requires Settling(y) && !t.ev.Connect? && !t.ev.Close? && !t.ev.Restart? && !t.ev.Purge?
    ensures Settling(ServerMoves(c, y, t))
  {
    hide Step, Sound, WillBeClean;
    SoundStep(c, y.pair, t);
    SameConnections(c, y.pair, t);
    if Step(c, y.pair, t).neg.None? {
      forall x: Side | y.pair.Connected(x) ensures WillBeClean(ServerMoves(c, y, t), x) {
        OrdinaryStepSettles(c, y, t, x);
      }
    }
  }

  lemma AgentSettles(c: Config, y: Sys, x: Side, w: World)
    requires Settling(y) && Enabled(y, DeliverDown(x, w))
    ensures Settling(AgentMoves(y, x, w))
  {
    hide Sound, OnMessage, Clean;
    var a, b := y.agents.At(x), y.down.At(x)[0];
    AgentWired(y, x, w);
    MessageCleans(a, b, w);
    CleanAfterMonotone(Kept(Clean(a), b), Clean(OnMessage(a, b, w)), y.down.At(x)[1..]);
  }

  /** Acts of an agent on its own only clean. */
  lemma OwnActSettles(c: Config, y: Sys, a: Act)
    requires Settling(y) && Enabled(y, a) && OwnAct(a)
    ensures Settling(Next(c, y, a))
  {
    hide Sound, Next, Enabled, Wired;
    var y' := Next(c, y, a);
    OwnActConverges(c, y, a);
    OwnActOnAgents(c, y, a);
    CleanAfterMonotone(Clean(y.agents.At(a.x)), Clean(y'.agents.At(a.x)), y.down.At(a.x));
    assert a.x == Lo || a.x == Hi;
  }

  /** An act leaves no probe behind if and only if it keeps its condition. */
  lemma ActSettles(c: Config, y: Sys, a: Act)
    requires Settling(y) && Enabled(y, a)
    ensures Settling(Next(c, y, a)) <==> KeepsSettling(y, a)
  {
    hide ServerMoves, AgentMoves, Sound, CleanAfter, Clean;
    match a
    case ServerAct(t) => ServerSettles(c, y, t);
    case DeliverUp(x, env) =>
      var y1 := y.(up := y.up.Put(x, y.up.At(x)[1..]));
      assert Settling(y1) && FromAgent(y.up.At(x)[0]);
      ServerSettles(c, y1, Timed(env, y.up.At(x)[0]));
    case DeliverDown(x, w) => AgentSettles(c, y, x, w);
    case _ => OwnActSettles(c, y, a);
  }

  // ----- whole runs -----

  predicate AlwaysClears(c: Config, y0: Sys, acts: seq<Act>)
    requires Reachable(c, y0, acts)
    decreases |acts|
  {
    acts == [] || (AlwaysClears(c, y0, acts[..|acts| - 1])
                   && KeepsSettling(After(c, y0, acts[..|acts| - 1]), acts[|acts| - 1]))
  }

  predicate AlwaysSettling(c: Config, y0: Sys, acts: seq<Act>)
    requires Reachable(c, y0, acts)
    decreases |acts|
  {
    Settling(After(c, y0, acts)) && (acts == [] || AlwaysSettling(c, y0, acts[..|acts| - 1]))
  }

  /** Over runs, exactly: the agents are settling at every moment if and only if every act keeps its condition. */
  lemma {:induction false} SettlingIffKept(c: Config, y0: Sys, acts: seq<Act>)
    requires Reachable(c, y0, acts) && Settling(y0)
    ensures AlwaysSettling(c, y0, acts) <==> AlwaysClears(c, y0, acts)
    decreases |acts|
  {
    if acts != [] {
      SettlingIffKept(c, y0, acts[..|acts| - 1]);
      hide Next, Settling, KeepsSettling;
      if AlwaysClears(c, y0, acts[..|acts| - 1]) {
        SettlesAtEnd(c, y0, acts[..|acts| - 1]);
        ActSettles(c, After(c, y0, acts[..|acts| - 1]), acts[|acts| - 1]);
      }
    }
  }

  lemma SettlesAtEnd(c: Config, y0: Sys, acts: seq<Act>)
    requires Reachable(c, y0, acts) && AlwaysSettling(c, y0, acts)
    ensures Settling(After(c, y0, acts))
  {
  }

  /** No probe outlives its session: in every run from the start in which each new socket finds its agent clean,
      and each peer removed in the middle of a negotiation is or will be clean, once the server has no negotiation
      for the pair and nothing is under way to the agents, no connected agent is frozen or holds a probe socket.
      The monitor's own timeout is needed only where one of these fails. */
  lemma {:induction false} NoProbeLeftBehind(c: Config, acts: seq<Act>)
    requires Reachable(c, START, acts) && AlwaysClears(c, START, acts)
    ensures var y := After(c, START, acts);
            y.pair.neg.None? && Drained(y) ==> forall x: Side :: y.pair.Connected(x) ==> Clean(y.agents.At(x))
  {
    SettlingIffKept(c, START, acts);
    hide Reachable, After, Next, AlwaysClears;
    SettlesAtEnd(c, START, acts);
    SettledIsClean(After(c, START, acts));
  }

  lemma SettledIsClean(y: Sys)
    requires Settling(y)
    ensures y.pair.neg.None? && Drained(y) ==> forall x: Side :: y.pair.Connected(x) ==> Clean(y.agents.At(x))
  {
    hide Clean;
    forall x: Side | y.pair.neg.None? && Drained(y) && y.pair.Connected(x) ensures Clean(y.agents.At(x)) {
      assert WillBeClean(y, x) && y.down.At(x) == [];
    }
  }

  // ----- a break shows -----

  /** What is under way to an end can be handled so that it is clean exactly if it was sure to be. */
  lemma {:induction false} HandleClean(c: Config, y0: Sys, y: Sys, x: Side) returns (y': Sys)
    requires Handling(c, y0, y) && Wired(y)
    ensures Handling(c, y0, y') && Wired(y') && y'.pair == y.pair && y'.down == y.down.Put(x, [])
    ensures Clean(y'.agents.At(x)) == WillBeClean(y, x) && y'.agents.At(x.Other()) == y.agents.At(x.Other())
    decreases |y.down.At(x)|
  {
    hide Handling, Wired, OnMessage, Reply, Clean;
    if y.down.At(x) == [] {
      y' := y;
    } else {
      var w := PickWorld(y, x);
      HandlingNext(c, y0, y, x, w);
      AgentWired(y, x, w);
      MessageCleans(y.agents.At(x), y.down.At(x)[0], w);
      y' := HandleClean(c, y0, AgentMoves(y, x, w), x);
    }
  }

  /** The condition is not too strong: after an act that breaks it, the agents can handle what is under way and be
      left, with no negotiation and nothing under way, with a connected end that is frozen or holds a socket. */
  lemma {:induction false} BreakLeavesProbe(c: Config, y: Sys, a: Act) returns (y': Sys, x: Side)
    requires Settling(y) && Enabled(y, a) && !KeepsSettling(y, a)
    ensures Handling(c, Next(c, y, a), y') && Drained(y') && y'.pair.neg.None?
    ensures y'.pair.Connected(x) && !Clean(y'.agents.At(x))
  {
    ActSettles(c, y, a);
    var y1 := Next(c, y, a);
    ActWired(c, y, a);
    hide Next, Handling, Enabled, KeepsSettling, Wired, Clean, WillBeClean;
    x :| y1.pair.Connected(x) && !WillBeClean(y1, x);
    HandlingSelf(c, y1);
    var y2 := HandleClean(c, y1, y1, x);
    y' := HandleClean(c, y1, y2, x.Other());
    assert x.Other().Other() == x;
  }

  /** A concrete break: the removed end of an active negotiation stays frozen with nothing under way to it. */
  lemma PurgeLeavesOneFrozen(c: Config, y: Sys, e: Env)
    requires Settling(y) && Drained(y) && y.pair.neg.Some? && y.agents.lo.frozenAt.Some?
    ensures var y' := ServerMoves(c, y, Timed(e, Purge(Lo)));
            y'.pair.neg.None? && y'.down.lo == [] && !Clean(y'.agents.lo)
  {
    var s' := Step(c, y.pair, Timed(e, Purge(Lo)));
    assert Added(y.pair, s') == [Sent(Hi, NegotiateAbort(PeerRemoved), true)];
    DeliveredOne(Sent(Hi, NegotiateAbort(PeerRemoved), true), Lo);
  }
}
