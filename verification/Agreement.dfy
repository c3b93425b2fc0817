/** When both agents end in the same mode. */
module Agreement {
  import opened Common
  import opened PairMachine
  import opened AgentMachine
  import opened Sessions
  import opened System

  function Applied(mode: Path, c: Command): Path {
    match c
    case ToRelay => RelayPath
    case ToDirect => DirectPath
    case Keep => mode
  }

  /** The mode after the messages still under way have been handled. */
  function ModeAfter(mode: Path, q: seq<Body>): Path
    decreases |q|
  {
    if q == [] then mode else ModeAfter(Applied(mode, CommandOf(q[0])), q[1..])
  }

  /** Handling a message changes the mode exactly as its command says. */
  lemma MessageApplies(a: Agent, body: Body, w: World)
    requires a.known
    ensures OnMessage(a, body, w).mode == Applied(a.mode, CommandOf(body)) && OnMessage(a, body, w).known
  {
  }

  lemma {:induction false} ModeAfterAppend(mode: Path, a: seq<Body>, b: seq<Body>)
    ensures ModeAfter(mode, a + b) == ModeAfter(ModeAfter(mode, a), b)
    decreases |a|
  {
    if a == [] {
      assert a + b == b;
    } else {
      assert (a + b)[1..] == a[1..] + b;
      ModeAfterAppend(Applied(mode, CommandOf(a[0])), a[1..], b);
    }
  }

  function ModeAfterCommands(mode: Path, cs: seq<Command>): Path {
    if cs == [] then mode else Applied(ModeAfterCommands(mode, cs[..|cs| - 1]), cs[|cs| - 1])
  }

  /** Every command in the stretch of log was delivered. */
  predicate AllDelivered(log: seq<Sent>) {
    forall i :: 0 <= i < |log| && CommandOf(log[i].body) != Keep ==> log[i].delivered
  }

  /** What reaches an end moves its mode as the commands sent to it would. */
  lemma {:induction false} DeliveredModes(mode: Path, log: seq<Sent>, x: Side)
    requires AllDelivered(log)
    ensures ModeAfter(mode, Delivered(log, x)) == ModeAfterCommands(mode, Commands(log, x))
  {
    if log != [] {
      var before, m := log[..|log| - 1], log[|log| - 1];
      assert AllDelivered(before) && (CommandOf(m.body) != Keep ==> m.delivered);
      DeliveredModes(mode, before, x);
      hide ModeAfter, AllDelivered, ModeAfterCommands;
      var tail := if m.to == x && m.delivered then [m.body] else [];
      ModeAfterAppend(mode, Delivered(before, x), tail);
      OneMessage(ModeAfter(mode, Delivered(before, x)), tail);
      OneCommand(mode, Commands(before, x), if m.to == x && CommandOf(m.body) != Keep then [CommandOf(m.body)] else []);
    }
  }

  lemma OneCommand(mode: Path, cs: seq<Command>, last: seq<Command>)
    requires |last| <= 1
    ensures ModeAfterCommands(mode, cs + last)
            == if last == [] then ModeAfterCommands(mode, cs) else Applied(ModeAfterCommands(mode, cs), last[0])
  {
    if last == [] {
      assert cs + last == cs;
    } else {
      assert (cs + last)[..|cs + last| - 1] == cs;
    }
  }

  lemma OneMessage(mode: Path, q: seq<Body>)
    requires |q| <= 1
    ensures ModeAfter(mode, q) == if q == [] then mode else Applied(mode, CommandOf(q[0]))
  {
  }

  // ----- converging, and the acts that keep it so -----

  /** Both agents know each other, and what they have under way to the server is of their making. */
  predicate Wired(y: Sys) {
    && Sound(y.pair) && y.agents.lo.known && y.agents.hi.known
    && (forall i :: 0 <= i < |y.up.lo| ==> FromAgent(y.up.lo[i]))
    && (forall i :: 0 <= i < |y.up.hi| ==> FromAgent(y.up.hi[i]))
  }

  /** The mode end x will hold once the messages under way to it are handled. */
  function Target(y: Sys, x: Side): Path {
    ModeAfter(y.agents.At(x).mode, y.down.At(x))
  }

  /** Once the messages under way are handled the two ends will hold the same mode. */
  predicate Converging(y: Sys) {
    Wired(y) && Target(y, Lo) == Target(y, Hi)
  }

  /** Nothing is under way to either agent. */
  predicate Drained(y: Sys) {
    y.down.lo == [] && y.down.hi == []
  }

  function PathOf(f: Forced): Path { if f.ForceRelay? then RelayPath else DirectPath }

  /** The act sets nobody apart. A socket may close or be replaced if what is lost with it holds no net mode
      change; the server may restart if the agents hold one mode; a force command needs both ends connected, or
      both absent, or the absent one in that mode anyway. */
  predicate KeepsAgreement(y: Sys, a: Act) {
    a.ServerAct? ==>
      match a.t.ev
      case Close(x) => Target(y, x) == y.agents.At(x).mode
      case Connect(x) => Target(y, x) == y.agents.At(x).mode
      case Restart => y.agents.lo.mode == y.agents.hi.mode
      case Force(_, target) => target.None? || y.pair.connLo == y.pair.connHi || Target(y, Lo) == PathOf(target.value)
      case _ => true
  }

  // ----- what a step of the server does to the targets -----

  lemma MoveDelivers(s: PairState, n': Option<Neg>, m: Move)
    requires Fits(s.neg, n', m) && !m.Forces? && !m.EndsAndForces?
    ensures AllDelivered(MoveLog(s, m))
  {
    if m.Opens? {
      assert |MoveLog(s, m)| <= 2;
    }
  }

  /** Apart from force commands, whatever the server sends is delivered. */
  lemma StepDelivers(c: Config, s: PairState, t: Timed)
    requires Sound(s) && !t.ev.Force?
    ensures AllDelivered(Added(s, Step(c, s, t)))
  {
    hide Makes, Added, Step, MoveLog, AllDelivered;
    StepMakesMove(c, s, t);
    AddedByMove(s, Step(c, s, t), MoveOf(s, Step(c, s, t), t));
    MoveDelivers(s, Step(c, s, t).neg, MoveOf(s, Step(c, s, t), t));
  }

  /** A force command reaches the ends that are connected. */
  lemma ForceDelivers(c: Config, s: PairState, t: Timed, x: Side, mode: Path)
    requires Sound(s) && t.ev.Force?
    ensures ModeAfter(mode, Delivered(Added(s, Step(c, s, t)), x))
            == if s.Connected(x) then Applied(mode, CommandOf(ForceMode(t.ev.target))) else mode
  {
    hide Step, Sound, Makes, Added, MoveOf;
    StepMakesMove(c, s, t);
    ForceIsMove(s, Step(c, s, t), t);
    var m := MoveOf(s, Step(c, s, t), t);
    AddedByMove(s, Step(c, s, t), m);
    var forces := ForceLog(s, t.ev.from, t.ev.target);
    DeliveredTwo(forces[0], forces[1], x);
    assert forces == [forces[0], forces[1]];
    var got := Delivered(forces, x);
    OneMessage(mode, got);
    if m.EndsAndForces? {
      var aborts := RenderEnd(AbortBoth(AdminForce));
      DeliveredAppend(aborts, forces, x);
      DeliveredTwo(aborts[0], aborts[1], x);
      OneMessage(mode, Delivered(aborts, x));
      ModeAfterAppend(mode, Delivered(aborts, x), got);
    }
  }

  lemma ForceIsMove(s: PairState, s': PairState, t: Timed)
    requires t.ev.Force?
    ensures MoveOf(s, s', t) == if s.neg.Some?
            then EndsAndForces(t.ev.from, t.ev.target) else Forces(t.ev.from, t.ev.target)
  {
  }

  lemma {:induction false} DeliveredAppend(a: seq<Sent>, b: seq<Sent>, x: Side)
    ensures Delivered(a + b, x) == Delivered(a, x) + Delivered(b, x)
    decreases |b|
  {
    if b == [] {
      assert a + b == a;
    } else {
      assert (a + b)[..|a + b| - 1] == a + b[..|b| - 1];
      DeliveredAppend(a, b[..|b| - 1], x);
    }
  }

  lemma CutAdds(c: Config, s: PairState, t: Timed)
    requires t.ev.Close? || t.ev.Connect? || t.ev.Restart?
    ensures var added := Added(s, Step(c, s, t));
            |added| <= 1 && (added != [] ==> CommandOf(added[0].body) == Keep)
  {
  }

  /** The steps that cut channels change no mode by what they send. */
  lemma CutsSendNoCommand(c: Config, s: PairState, t: Timed, x: Side, mode: Path)
    requires t.ev.Close? || t.ev.Connect? || t.ev.Restart?
    ensures ModeAfter(mode, Delivered(Added(s, Step(c, s, t)), x)) == mode
  {
    hide Step, Added;
    CutAdds(c, s, t);
    var added := Added(s, Step(c, s, t));
    if added != [] {
      assert added == [added[0]];
      DeliveredOne(added[0], x);
      OneMessage(mode, Delivered(added, x));
    }
  }

  predicate Cuts(ev: Event, x: Side) { ev.Restart? || ((ev.Close? || ev.Connect?) && ev.from == x) }

  /** Where a step of the server leaves the target of end x. */
  lemma ServerTarget(c: Config, y: Sys, t: Timed, x: Side)
    requires Sound(y.pair)
    ensures var y' := ServerMoves(c, y, t);
            var added := Added(y.pair, Step(c, y.pair, t));
            Target(y', x) ==
              if Cuts(t.ev, x) then y.agents.At(x).mode
              else if t.ev.Force? then
                (if y.pair.Connected(x) then Applied(Target(y, x), CommandOf(ForceMode(t.ev.target))) else Target(y, x))
              else if t.ev.Close? || t.ev.Connect? then Target(y, x)
              else ModeAfterCommands(Target(y, x), Commands(added, x))
  {
    hide Step, Added, Sound, ModeAfter, AllDelivered;
    var added := Added(y.pair, Step(c, y.pair, t));
    var base := DownAfter(y.down, t.ev).At(x);
    ModeAfterAppend(y.agents.At(x).mode, base, Delivered(added, x));
    NothingToHandle(y.agents.At(x).mode);
    if t.ev.Close? || t.ev.Connect? || t.ev.Restart? {
      CutsSendNoCommand(c, y.pair, t, x, ModeAfter(y.agents.At(x).mode, base));
    } else if t.ev.Force? {
      ForceDelivers(c, y.pair, t, x, Target(y, x));
    } else {
      StepDelivers(c, y.pair, t);
      DeliveredModes(Target(y, x), added, x);
    }
  }

  lemma NothingToHandle(mode: Path)
    ensures ModeAfter(mode, []) == mode
  {
  }

  /** A step of the server keeps the ends converging exactly if its condition holds. */
  lemma ServerConverges(c: Config, y: Sys, t: Timed)
    requires Converging(y)
    ensures Converging(ServerMoves(c, y, t)) <==> KeepsAgreement(y, ServerAct(t))
  {
    hide Step, Added, Sound, Target, Commands;
    SoundStep(c, y.pair, t);
    StepCommands(c, y.pair, t);
    ServerTarget(c, y, t, Lo);
    ServerTarget(c, y, t, Hi);
  }

  lemma AgentConverges(c: Config, y: Sys, x: Side, w: World)
    requires Converging(y) && Enabled(y, DeliverDown(x, w))
    ensures Converging(AgentMoves(y, x, w))
  {
    hide Sound, OnMessage;
    MessageApplies(y.agents.At(x), y.down.At(x)[0], w);
  }

  predicate OwnAct(a: Act) { !a.ServerAct? && !a.DeliverUp? && !a.DeliverDown? }

  /** What an agent does on its own moves no mode and leaves neither a freeze nor a socket behind. */
  lemma OwnActOnAgents(c: Config, y: Sys, a: Act)
    requires OwnAct(a) && Enabled(y, a)
    ensures var y' := Next(c, y, a);
            && y'.pair == y.pair && y'.down == y.down && y'.agents.At(a.x.Other()) == y.agents.At(a.x.Other())
            && y'.agents.At(a.x).mode == y.agents.At(a.x).mode && y'.agents.At(a.x).known == y.agents.At(a.x).known
            && (y.agents.At(a.x).frozenAt.None? ==> y'.agents.At(a.x).frozenAt.None?)
            && (y.agents.At(a.x).slot.None? ==> y'.agents.At(a.x).slot.None?)
  {
  }

  lemma OwnActOnChannels(c: Config, y: Sys, a: Act)
    requires OwnAct(a) && Enabled(y, a)
    requires forall i :: 0 <= i < |y.up.At(a.x)| ==> FromAgent(y.up.At(a.x)[i])
    ensures var y' := Next(c, y, a);
            && y'.up.At(a.x.Other()) == y.up.At(a.x.Other())
            && forall i :: 0 <= i < |y'.up.At(a.x)| ==> FromAgent(y'.up.At(a.x)[i])
  {
    hide OnDatagram, OnLoopEnd, OnDisconnect, Unfreeze, Receive;
  }

  lemma OwnActConverges(c: Config, y: Sys, a: Act)
    requires Wired(y) && OwnAct(a) && Enabled(y, a)
    ensures var y' := Next(c, y, a); Wired(y') && Target(y', Lo) == Target(y, Lo) && Target(y', Hi) == Target(y, Hi)
  {
    hide Next, Enabled, Sound, ModeAfter;
    OwnActOnAgents(c, y, a);
    OwnActOnChannels(c, y, a);
    var y' := Next(c, y, a);
    assert a.x == Lo || a.x == Hi;
    assert y'.up.At(a.x) == if a.x.Lo? then y'.up.lo else y'.up.hi;
  }

  /** An act keeps the ends converging if and only if it is no server step that sets them apart. */
  lemma ActConverges(c: Config, y: Sys, a: Act)
    requires Converging(y) && Enabled(y, a)
    ensures Converging(Next(c, y, a)) <==> KeepsAgreement(y, a)
  {
    hide ServerMoves, AgentMoves, Sound, ModeAfter;
    match a
    case ServerAct(t) => ServerConverges(c, y, t);
    case DeliverUp(x, env) =>
      var y1 := y.(up := y.up.Put(x, y.up.At(x)[1..]));
      assert Converging(y1) && FromAgent(y.up.At(x)[0]);
      ServerConverges(c, y1, Timed(env, y.up.At(x)[0]));
    case DeliverDown(x, w) => AgentConverges(c, y, x, w);
    case _ => OwnActConverges(c, y, a);
  }

  // ----- whole runs -----

  predicate AlwaysKeeps(c: Config, y0: Sys, acts: seq<Act>)
    requires Reachable(c, y0, acts)
    decreases |acts|
  {
    acts == [] || (AlwaysKeeps(c, y0, acts[..|acts| - 1])
                   && KeepsAgreement(After(c, y0, acts[..|acts| - 1]), acts[|acts| - 1]))
  }

  predicate AlwaysConverging(c: Config, y0: Sys, acts: seq<Act>)
    requires Reachable(c, y0, acts)
    decreases |acts|
  {
    Converging(After(c, y0, acts)) && (acts == [] || AlwaysConverging(c, y0, acts[..|acts| - 1]))
  }

  /** Agreement over runs, exactly: the ends are converging at every moment of a run if and only if none of its
      acts sets them apart. */
  lemma {:induction false} ConvergingIffKept(c: Config, y0: Sys, acts: seq<Act>)
    requires Reachable(c, y0, acts) && Converging(y0)
    ensures AlwaysConverging(c, y0, acts) <==> AlwaysKeeps(c, y0, acts)
    decreases |acts|
  {
    if acts != [] {
      ConvergingIffKept(c, y0, acts[..|acts| - 1]);
      hide Next, Converging, KeepsAgreement;
      if AlwaysKeeps(c, y0, acts[..|acts| - 1]) {
        ConvergesAtEnd(c, y0, acts[..|acts| - 1]);
        ActConverges(c, After(c, y0, acts[..|acts| - 1]), acts[|acts| - 1]);
      }
    }
  }

  lemma ConvergesAtEnd(c: Config, y0: Sys, acts: seq<Act>)
    requires Reachable(c, y0, acts) && AlwaysConverging(c, y0, acts)
    ensures Converging(After(c, y0, acts))
  {
  }

  /** Quiescent agreement: in every run from the start in which no channel that is cut holds a net mode change,
      no restart finds the agents in different modes, and no force command reaches one end only that has to change
      (in particular if every force finds both ends connected), whatever probes, verdicts, timeouts, disconnects
      and commands occur: whenever nothing is under way to the agents they hold the same mode. */
  lemma {:induction false} QuiescentAgreement(c: Config, acts: seq<Act>)
    requires Reachable(c, START, acts) && AlwaysKeeps(c, START, acts)
    ensures var y := After(c, START, acts); Drained(y) ==> y.agents.lo.mode == y.agents.hi.mode
  {
    ConvergingIffKept(c, START, acts);
    hide Reachable, After, Next, AlwaysKeeps;
    ConvergesAtEnd(c, START, acts);
  }

  /** From a converging moment with both ends connected, a run without closed or replaced sockets and restarts
      sets nobody apart. */
  predicate Steady(acts: seq<Act>) {
    forall i :: 0 <= i < |acts| ==>
      acts[i].ServerAct? ==> !acts[i].t.ev.Connect? && !acts[i].t.ev.Close? && !acts[i].t.ev.Restart?
  }

  lemma {:induction false} SteadyRunsKeep(c: Config, y0: Sys, acts: seq<Act>)
    requires Reachable(c, y0, acts) && y0.pair.BothConnected() && Wired(y0) && Steady(acts)
    ensures AlwaysKeeps(c, y0, acts)
    ensures After(c, y0, acts).pair.BothConnected() && Wired(After(c, y0, acts))
    decreases |acts|
  {
    if acts != [] {
      SteadyRunsKeep(c, y0, acts[..|acts| - 1]);
      hide Next, Wired, KeepsAgreement;
      SteadyActKeeps(c, After(c, y0, acts[..|acts| - 1]), acts[|acts| - 1]);
    }
  }

  lemma StaysConnected(c: Config, s: PairState, t: Timed)
    requires s.BothConnected() && !t.ev.Close? && !t.ev.Restart?
    ensures Step(c, s, t).BothConnected()
  {
  }

  lemma SteadyServerStep(c: Config, y: Sys, t: Timed)
    requires y.pair.BothConnected() && Wired(y) && !t.ev.Connect? && !t.ev.Close? && !t.ev.Restart?
    ensures ServerMoves(c, y, t).pair.BothConnected() && Wired(ServerMoves(c, y, t)) && KeepsAgreement(y, ServerAct(t))
  {
    StaysConnected(c, y.pair, t);
    SoundStep(c, y.pair, t);
    hide Step, Sound, ModeAfter;
  }

  lemma SteadyActKeeps(c: Config, y: Sys, a: Act)
    requires y.pair.BothConnected() && Wired(y) && Enabled(y, a)
    requires a.ServerAct? ==> !a.t.ev.Connect? && !a.t.ev.Close? && !a.t.ev.Restart?
    ensures KeepsAgreement(y, a) && Next(c, y, a).pair.BothConnected() && Wired(Next(c, y, a))
  {
    hide ServerMoves, AgentMoves, Sound, OnDatagram, OnLoopEnd, OnDisconnect, Unfreeze;
    match a
    case ServerAct(t) => SteadyServerStep(c, y, t);
    case DeliverUp(x, env) => SteadyServerStep(c, y.(up := y.up.Put(x, y.up.At(x)[1..])), Timed(env, y.up.At(x)[0]));
    case DeliverDown(x, w) => AgentWired(y, x, w);
    case _ =>
      OwnActOnAgents(c, y, a);
      OwnActConverges(c, y, a);
  }

  lemma AgentWired(y: Sys, x: Side, w: World)
    requires Wired(y) && y.down.At(x) != []
    ensures Wired(AgentMoves(y, x, w)) && AgentMoves(y, x, w).pair == y.pair
  {
    hide Sound, OnMessage;
    MessageApplies(y.agents.At(x), y.down.At(x)[0], w);
  }

  // ----- a break shows -----

  /** What is under way to an end is handled, and its mode is then its target. */
  lemma {:induction false} HandleAll(c: Config, y0: Sys, y: Sys, x: Side) returns (y': Sys)
    requires Handling(c, y0, y) && Wired(y)
    ensures Handling(c, y0, y') && Wired(y') && y'.down == y.down.Put(x, [])
    ensures y'.agents.At(x).mode == Target(y, x) && y'.agents.At(x.Other()) == y.agents.At(x.Other())
    decreases |y.down.At(x)|
  {
    hide Handling, Wired, OnMessage, Reply;
    if y.down.At(x) == [] {
      y' := y;
    } else {
      var w := PickWorld(y, x);
      HandlingNext(c, y0, y, x, w);
      AgentWired(y, x, w);
      KnowsPeer(y, x);
      MessageApplies(y.agents.At(x), y.down.At(x)[0], w);
      y' := HandleAll(c, y0, AgentMoves(y, x, w), x);
    }
  }

  lemma KnowsPeer(y: Sys, x: Side)
    requires Wired(y)
    ensures y.agents.At(x).known
  {
  }

  /** The condition is not too strong: after an act that sets the ends apart, handling what is under way leaves
      nothing under way and the two agents in different modes. */
  lemma {:induction false} BreakShows(c: Config, y: Sys, a: Act) returns (y': Sys)
    requires Converging(y) && Enabled(y, a) && !KeepsAgreement(y, a)
    ensures Handling(c, Next(c, y, a), y') && Drained(y') && y'.agents.lo.mode != y'.agents.hi.mode
  {
    ActConverges(c, y, a);
    var y1 := Next(c, y, a);
    ActWired(c, y, a);
    hide Next, Handling, Enabled, KeepsAgreement, Wired;
    HandlingSelf(c, y1);
    var y2 := HandleAll(c, y1, y1, Lo);
    y' := HandleAll(c, y1, y2, Hi);
  }

  lemma ActWired(c: Config, y: Sys, a: Act)
    requires Wired(y) && a.ServerAct? && Enabled(y, a)
    ensures Wired(Next(c, y, a))
  {
    hide Step, Sound;
    SoundStep(c, y.pair, a.t);
  }

  /** A concrete break: a disconnect that loses a command leaves the two agents apart, with nothing under way. */
  lemma LostCommandSplitsModes(c: Config, y: Sys, e: Env, w: World)
    requires Converging(y) && y.pair.BothConnected() && Drained(y) && y.pair.neg.None?
    requires y.agents.hi.mode == DirectPath && y.agents.lo.mode == DirectPath
    ensures var cut := ServerMoves(c, ServerMoves(c, y, Timed(e, Force(Lo, Some(ForceRelay)))), Timed(e, Close(Lo)));
            && cut.down.hi == [ForceMode(Some(ForceRelay))]
            && var y' := AgentMoves(cut, Hi, w);
               Drained(y') && y'.agents.lo.mode == DirectPath && y'.agents.hi.mode == RelayPath
  {
    var f := ForceMode(Some(ForceRelay));
    var s1 := Step(c, y.pair, Timed(e, Force(Lo, Some(ForceRelay))));
    assert s1.log == y.pair.log + [Sent(Lo, f, true), Sent(Hi, f, true)];
    var added := Added(y.pair, s1);
    assert added == [Sent(Lo, f, true), Sent(Hi, f, true)];
    DeliveredTwo(added[0], added[1], Hi);
    assert Added(s1, Step(c, s1, Timed(e, Close(Lo)))) == [];
  }
}
