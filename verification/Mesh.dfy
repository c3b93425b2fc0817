/** A server object and the two agent objects at the ends of one pair, kept in step with the values of System, so
    that the end-to-end results are results about the objects. */
module Mesh {
  import opened Common
  import opened PairKeys
  import opened PairMachine
  import opened Negotiator
  import opened Sessions
  import opened AgentMachine
  import opened AgentHandlers
  import opened Monitoring
  import opened Tracking
  import opened Reaper
  import opened System
  import opened DirectEvidence
  import opened Transcript
  import opened ServerTheorems
  import Agreement
  import Quiescence

  /** The acts of the system that steps of the server are, apart from what comes from the pair's agents. */
  function ServerActs(tr: seq<Timed>): seq<Act> {
    seq(|tr|, i requires 0 <= i < |tr| => ServerAct(tr[i]))
  }

  predicate OnItsOwn(tr: seq<Timed>) {
    forall i :: 0 <= i < |tr| ==> !FromAgent(tr[i].ev)
  }

  /** The acts lead from the start to y. */
  predicate Came(c: Config, acts: seq<Act>, y: Sys) {
    Reachable(c, START, acts) && After(c, START, acts) == y
  }

  lemma CameOn(c: Config, acts: seq<Act>, y: Sys, a: Act)
    requires Came(c, acts, y) && Enabled(y, a)
    ensures Came(c, acts + [a], Next(c, y, a))
  {
    hide Next, Enabled;
    AfterOneMore(c, START, acts, a);
  }

  lemma {:induction false} ServerRunsOn(c: Config, acts: seq<Act>, y: Sys, tr: seq<Timed>) returns (y': Sys)
    requires Came(c, acts, y) && OnItsOwn(tr)
    ensures Came(c, acts + ServerActs(tr), y') && y'.pair == RunFrom(c, y.pair, tr) && y'.agents == y.agents
    ensures y'.past == y.past && forall x: Side :: Said(c, acts + ServerActs(tr), x) == Said(c, acts, x)
    decreases |tr|
  {
    hide Step, Reachable, After, Said;
    if tr == [] {
      assert acts + ServerActs(tr) == acts;
      y' := y;
    } else {
      var l := |tr| - 1;
      var y1 := ServerRunsOn(c, acts, y, tr[..l]);
      CameOn(c, acts + ServerActs(tr[..l]), y1, ServerAct(tr[l]));
      assert acts + ServerActs(tr) == acts + ServerActs(tr[..l]) + [ServerAct(tr[l])];
      SaysNothing(c, acts + ServerActs(tr[..l]), y1, ServerAct(tr[l]));
      y' := Next(c, y1, ServerAct(tr[l]));
    }
  }

  /** Acts other than these two have no agent say or send anything. */
  predicate Silent(a: Act) { !a.DeliverDown? && !a.LoopEnds? }

  lemma SaysNothing(c: Config, acts: seq<Act>, y: Sys, a: Act)
    requires Came(c, acts, y) && Enabled(y, a) && Silent(a)
    ensures Reachable(c, START, acts + [a]) && forall x: Side :: Said(c, acts + [a], x) == Said(c, acts, x)
  {
    hide Reachable, After, Said, Enabled;
    forall x: Side ensures Reachable(c, START, acts + [a]) && Said(c, acts + [a], x) == Said(c, acts, x) {
      SaidOn(c, acts, a, x);
      assert Said(c, acts, x) + [] == Said(c, acts, x);
    }
    SaidOn(c, acts, a, Lo);
  }

  /** An agent's answer, as a message, is for its pair the event it was. */
  lemma MessageIsEvent(peers: map<PeerId, PeerRow>, p: Pair, x: Side, ev: Event, msg: AgentMessage)
    requires p.Proper() && FromAgent(ev) && ev.from == x && ToServer(End(p, x.Other()), ev) == [msg]
    ensures EventsOfMessage(peers, End(p, x), msg, p) == [ev]
  {
    hide Less;
    PairOfEnds(p);
  }

  lemma {:induction false} ReportsAreServers(from: PeerId, reports: seq<HealthReport>, p: Pair)
    ensures forall i :: 0 <= i < |UpsertsFor(from, reports, p)| ==> !FromAgent(UpsertsFor(from, reports, p)[i])
    ensures forall i :: 0 <= i < |ReportsFor(from, reports, p)| ==> !FromAgent(ReportsFor(from, reports, p)[i])
  {
    if reports != [] { ReportsAreServers(from, reports[..|reports| - 1], p); }
  }

  lemma {:induction false} RemovalsAreServers(gone: seq<PeerId>, p: Pair)
    ensures forall i :: 0 <= i < |PurgesFor(gone, p)| ==> !FromAgent(PurgesFor(gone, p)[i])
    ensures forall i :: 0 <= i < |CascadesFor(gone, p)| ==> !FromAgent(CascadesFor(gone, p)[i])
  {
    if gone != [] { RemovalsAreServers(gone[..|gone| - 1], p); }
  }

  /** A call that carries no probe message about the pair. */
  predicate Foreign(i: Input, p: Pair) {
    i.call.Message? && !i.call.msg.HealthReportMsg? ==> PairOf(i.call.from, i.call.msg.other) != p
  }

  lemma ForeignIsOwn(i: Input, p: Pair)
    requires Foreign(i, p)
    ensures OnItsOwn(TimedOf(i, p))
  {
    hide UpsertsFor, ReportsFor, PurgesFor, CascadesFor, Less, PairOf, Storable;
    match i.call
    case Message(from, HealthReportMsg(reports)) => ReportsAreServers(from, reports, p);
    case Reaped(expired, _) => RemovalsAreServers(expired, p);
    case _ =>
  }

  // ----- two agents on heaps of their own -----

  ghost predicate Apart(a: Negotiate, o: Negotiate)
    reads a`sockets, o`sockets, a.monitor`peerStates, o.monitor`peerStates
  {
    && a != o && a.monitor != o.monitor
    && a.monitor.peerStates.Values !! o.monitor.peerStates.Values && a.sockets.Values !! o.sockets.Values
  }

  /** One agent handles a message; the other does not notice. */
  method Handle(a: Negotiate, o: Negotiate, peer: PeerId, body: Body, w: World)
    requires a.Valid() && o.Valid() && Apart(a, o) && w.id !in a.sockets
    modifies a, a.sockets.Values, a.monitor, a.monitor.peerStates.Values
    ensures a.Valid() && o.Valid() && Apart(a, o)
    ensures forall q {:trigger a.Slice(q)} ::
              a.Slice(q) == if q == peer then OnMessage(old(a.Slice(q)), body, w) else old(a.Slice(q))
    ensures forall q {:trigger o.Slice(q)} :: o.Slice(q) == old(o.Slice(q))
    ensures a.sent == old(a.sent) + Sends(peer, Reply(old(a.Slice(peer)), Lo, body, w))
    ensures a.wire == old(a.wire) + Packets(peer, old(a.Slice(peer)), body)
    ensures o.sent == old(o.sent) && o.wire == old(o.wire)
  {
    hide Negotiate.Slice, OnMessage, Reply, Sends, Packets, TcpAfter;
    a.HandleMessage(peer, body, w);
  }

  /** A datagram reaches an open probe socket of one agent. */
  method Arrive(a: Negotiate, o: Negotiate, peer: PeerId, id: nat, payload: string)
    requires a.Valid() && o.Valid() && Apart(a, o) && id in a.sockets && a.sockets[id].owner == peer
    requires a.sockets[id].open
    modifies a.sockets.Values
    ensures a.Valid() && o.Valid() && Apart(a, o)
    ensures a.Slice(peer) == OnDatagram(old(a.Slice(peer)), id, payload)
    ensures forall q {:trigger o.Slice(q)} :: o.Slice(q) == old(o.Slice(q))
  {
    hide Negotiate.Slice, OnDatagram;
    a.OnData(peer, id, payload);
  }

  /** A go loop of one agent ends. */
  method EndLoop(a: Negotiate, o: Negotiate, peer: PeerId, id: nat, success: bool)
    requires a.Valid() && o.Valid() && Apart(a, o)
    requires peer in a.loops && id in a.loops[peer] && id in a.sockets && (success ==> a.sockets[id].resolved)
    modifies a, a.sockets.Values
    ensures a.Valid() && o.Valid() && Apart(a, o)
    ensures a.Slice(peer) == OnLoopEnd(old(a.Slice(peer)), id)
    ensures forall q {:trigger o.Slice(q)} :: o.Slice(q) == old(o.Slice(q))
    ensures a.sent == old(a.sent) + Sends(peer, [DirectResult(Lo, success)]) && a.wire == old(a.wire)
    ensures o.sent == old(o.sent) && o.wire == old(o.wire)
  {
    hide Negotiate.Slice, OnLoopEnd, Sends;
    a.LoopEnds(peer, id, success);
  }

  /** One agent's WebSocket closes. */
  method Disconnected(a: Negotiate, o: Negotiate)
    requires a.Valid() && o.Valid() && Apart(a, o)
    modifies a, a.sockets.Values, a.monitor
    ensures a.Valid() && o.Valid() && Apart(a, o)
    ensures forall q {:trigger a.Slice(q)} :: a.Slice(q) == OnDisconnect(old(a.Slice(q)))
    ensures forall q {:trigger o.Slice(q)} :: o.Slice(q) == old(o.Slice(q))
    ensures a.sent == old(a.sent) && a.wire == old(a.wire) && o.sent == old(o.sent) && o.wire == old(o.wire)
  {
    hide Negotiate.Slice, OnDisconnect;
    a.Reset();
  }

  lemma TickKeepsMode(v: View, now: nat, rx: nat)
    ensures var v' := Observe(v, Tick(now, rx));
            && (v'.state.Some? <==> v.state.Some?) && (v.state.Some? ==> v'.state.value.mode == v.state.value.mode)
            && v'.frozenAt == Thawed(v, now).frozenAt
  {
  }

  /** One agent's monitor ticks: at most a freeze that lasted too long is lifted. */
  method TickApart(a: Negotiate, o: Negotiate, peer: PeerId, now: nat, rx: map<PeerId, nat>) returns (thawed: bool)
    requires a.Valid() && o.Valid() && Apart(a, o)
    modifies a.monitor, a.monitor.peerStates.Values
    ensures a.Valid() && o.Valid() && Apart(a, o)
    ensures a.Slice(peer) == if thawed then AgentMachine.Unfreeze(old(a.Slice(peer))) else old(a.Slice(peer))
    ensures forall q {:trigger o.Slice(q)} :: o.Slice(q) == old(o.Slice(q))
  {
    hide Observe, Thawed, Observed, SightingsOf, Negotiate.EntriesOf;
    ghost var before := a.monitor.ViewOf(peer);
    var frozen := peer in a.monitor.frozenAt;
    a.monitor.OnTick(now, rx);
    thawed := frozen && peer !in a.monitor.frozenAt;
    TickKeepsMode(before, now, if peer in rx then rx[peer] else 0);
    ThawedEither(before, now);
    assert a.monitor.ViewOf(peer) == Moved(before, TickAll(now, rx), peer);
    assert a.DeskOf(peer) == old(a.DeskOf(peer));
    forall q ensures o.Slice(q) == old(o.Slice(q)) {}
  }

  lemma ThawedEither(v: View, now: nat)
    ensures Thawed(v, now).frozenAt == v.frozenAt || Thawed(v, now).frozenAt.None?
  {
  }

  /** What the slice of a peer says about the agent's fields. */
  lemma SliceTells(a: Negotiate, peer: PeerId, id: nat)
    requires a.Valid()
    ensures var s := a.Slice(peer);
            && (id in s.entries <==> id in a.sockets && a.sockets[id].owner == peer)
            && (id in s.entries ==> s.entries[id] == a.sockets[id].Value())
            && (id in s.loops <==> peer in a.loops && id in a.loops[peer])
  {
  }

  lemma OwnActKeepsPair(c: Config, y: Sys, a: Act)
    requires Enabled(y, a) && !a.ServerAct? && !a.DeliverUp?
    ensures Next(c, y, a).pair == y.pair
  {
  }

  // ----- the three of them -----

  class Mesh {
    const p: Pair
    const server: Server
    /** The agents of the pair's ends. */
    const lo: Negotiate
    const hi: Negotiate
    /** What has happened to the pair so far, and where it has led. */
    ghost var acts: seq<Act>
    ghost var y: Sys

    function At(x: Side): Negotiate { if x.Lo? then lo else hi }

    /** The peer that the agent of end x deals with. */
    function PeerOf(x: Side): PeerId { End(p, x.Other()) }

    /** The objects hold just what the system holds. */
    ghost predicate Agents()
      reads this`y
      reads lo, lo.sockets.Values, lo.monitor, lo.monitor.peerStates.Values
      reads hi, hi.sockets.Values, hi.monitor, hi.monitor.peerStates.Values
    {
      && lo.Valid() && hi.Valid() && Apart(lo, hi)
      && y.agents == Both(lo.Slice(p.hi), hi.Slice(p.lo))
    }

    ghost predicate Servers()
      reads this`y, server, server.pairHealthMap.Values
    {
      p.Proper() && server.Valid() && y.pair == server.Slice(p)
    }

    ghost predicate Past()
      reads this`acts, this`y
    {
      Came(server.config, acts, y)
    }

    /** The agents' own logs hold just what the system has them say and send. */
    ghost predicate Told()
      reads this`acts, this`y, lo`sent, lo`wire, hi`sent, hi`wire
    {
      && Came(server.config, acts, y)
      && Logged(lo.sent, lo.wire, p.hi, Lo, Said(server.config, acts, Lo), y.past.flying)
      && Logged(hi.sent, hi.wire, p.lo, Hi, Said(server.config, acts, Hi), y.past.flying)
    }

    ghost predicate Valid()
      reads this, server, server.pairHealthMap.Values
      reads lo, lo.sockets.Values, lo.monitor, lo.monitor.peerStates.Values
      reads hi, hi.sockets.Values, hi.monitor, hi.monitor.peerStates.Values
    {
      Past() && Servers() && Agents() && Told()
    }

    /** A server with an empty history and two agents that know each other and have nothing on their hands. */
    constructor (p: Pair, server: Server, lo: Negotiate, hi: Negotiate)
      requires p.Proper() && server.Valid() && server.history == []
      requires lo.Valid() && hi.Valid() && Apart(lo, hi)
      requires lo.Slice(p.hi) == IDLE && hi.Slice(p.lo) == IDLE
      requires About(lo.sent, p.hi) == [] && About(hi.sent, p.lo) == []
      requires (forall k :: k in lo.wire ==> k.peer != p.hi) && (forall k :: k in hi.wire ==> k.peer != p.lo)
      ensures Valid() && acts == [] && this.p == p && this.server == server && this.lo == lo && this.hi == hi
    {
      this.p, this.server, this.lo, this.hi := p, server, lo, hi;
      acts, y := [], START;
    }

    // ----- what the agents do -----

    /** The two ends, seen from one of them. */
    ghost predicate Holds(x: Side, a: Agent, other: Agent)
      reads lo, lo.sockets.Values, lo.monitor, lo.monitor.peerStates.Values
      reads hi, hi.sockets.Values, hi.monitor, hi.monitor.peerStates.Values
    {
      && At(x).Valid() && At(x.Other()).Valid() && Apart(At(x), At(x.Other()))
      && At(x).Slice(PeerOf(x)) == a && At(x.Other()).Slice(PeerOf(x.Other())) == other
    }

    lemma AgentsHold(x: Side)
      ensures Agents() <==> Holds(x, y.agents.At(x), y.agents.At(x.Other()))
    {
      hide Negotiate.Slice, Negotiate.Valid;
    }

    /** The server and what is said of it do not change with an act of an agent. */
    twostate lemma AgentActed(a: Act)
      requires old(Valid()) && unchanged(server) && unchanged(server.pairHealthMap.Values)
      requires Enabled(old(y), a) && !a.ServerAct? && !a.DeliverUp?
      requires y == Next(server.config, old(y), a) && acts == old(acts) + [a]
      ensures Past() && Servers()
    {
      hide Server.Slice, Server.Valid, Came, Agents, OnMessage, Reply;
      CameOn(server.config, old(acts), old(y), a);
      OwnActKeepsPair(server.config, old(y), a);
    }

    /** The logs stay so if each agent adds to its own what the act has it say and send. */
    twostate lemma AgentTold(a: Act)
      requires old(Told()) && Enabled(old(y), a) && y == Next(server.config, old(y), a) && acts == old(acts) + [a]
      requires lo.sent == old(lo.sent) + Sends(p.hi, Says(old(y), a, Lo))
      requires lo.wire == old(lo.wire) + Puts(p.hi, old(y), a, Lo)
      requires hi.sent == old(hi.sent) + Sends(p.lo, Says(old(y), a, Hi))
      requires hi.wire == old(hi.wire) + Puts(p.lo, old(y), a, Hi)
      ensures Told()
    {
      hide Next, Enabled, Says, Puts, Said, Sends, About, Reachable, After, Logged;
      CameOn(server.config, old(acts), old(y), a);
      LoggedNext(server.config, old(acts), old(y), a, Lo, p.hi, old(lo.sent), old(lo.wire));
      LoggedNext(server.config, old(acts), old(y), a, Hi, p.lo, old(hi.sent), old(hi.wire));
    }

    twostate lemma StillTold(a: Act)
      requires old(Told()) && Enabled(old(y), a) && y == Next(server.config, old(y), a) && acts == old(acts) + [a]
      requires Silent(a)
      requires lo.sent == old(lo.sent) && lo.wire == old(lo.wire) && hi.sent == old(hi.sent) && hi.wire == old(hi.wire)
      ensures Told()
    {
      hide Next, Enabled, Said, About, Reachable, After, Logged;
      assert lo.sent + [] == lo.sent && lo.wire + [] == lo.wire && hi.sent + [] == hi.sent && hi.wire + [] == hi.wire;
      AgentTold(a);
    }

    method HandleAt(x: Side, body: Body, w: World, ghost a: Agent, ghost other: Agent)
      requires Holds(x, a, other) && w.id !in At(x).sockets
      modifies At(x), At(x).sockets.Values, At(x).monitor, At(x).monitor.peerStates.Values
      ensures Holds(x, OnMessage(a, body, w), other)
      ensures At(x).sent == old(At(x).sent) + Sends(PeerOf(x), Reply(a, Lo, body, w))
      ensures At(x).wire == old(At(x).wire) + Packets(PeerOf(x), a, body)
      ensures At(x.Other()).sent == old(At(x.Other()).sent) && At(x.Other()).wire == old(At(x.Other()).wire)
    {
      hide Negotiate.Slice, Negotiate.Valid, OnMessage, Reply, Packets, Sends;
      Handle(At(x), At(x.Other()), PeerOf(x), body, w);
    }

    method ArriveAt(x: Side, id: nat, payload: string, ghost a: Agent, ghost other: Agent)
      requires Holds(x, a, other) && id in a.entries
      modifies At(x).sockets.Values
      ensures Holds(x, OnDatagram(a, id, payload), other)
    {
      hide Negotiate.Slice, Negotiate.Valid;
      SliceTells(At(x), PeerOf(x), id);
      if At(x).sockets[id].open {
        Arrive(At(x), At(x.Other()), PeerOf(x), id, payload);
      }
    }

    method EndLoopAt(x: Side, id: nat, success: bool, ghost a: Agent, ghost other: Agent)
      requires Holds(x, a, other) && id in a.loops && id in a.entries && (success ==> a.entries[id].resolved)
      modifies At(x), At(x).sockets.Values
      ensures Holds(x, OnLoopEnd(a, id), other)
      ensures At(x).sent == old(At(x).sent) + Sends(PeerOf(x), [DirectResult(Lo, success)])
      ensures At(x).wire == old(At(x).wire)
      ensures At(x.Other()).sent == old(At(x.Other()).sent) && At(x.Other()).wire == old(At(x.Other()).wire)
    {
      hide Negotiate.Slice, Negotiate.Valid, OnLoopEnd, Sends;
      SliceTells(At(x), PeerOf(x), id);
      EndLoop(At(x), At(x.Other()), PeerOf(x), id, success);
    }

    /** The agent of end x handles the next message under way to it. */
    method Hears(x: Side, body: Body, w: World)
      requires Valid() && Enabled(y, DeliverDown(x, w)) && y.down.At(x)[0] == body && w.id !in At(x).sockets
      modifies this`acts, this`y, At(x), At(x).sockets.Values, At(x).monitor, At(x).monitor.peerStates.Values
      ensures Valid() && acts == old(acts) + [DeliverDown(x, w)]
    {
      hide Negotiate.Slice, Negotiate.Valid, OnMessage, Reply, Server.Slice, Server.Valid, Came, Agents, Past, Servers,
           Holds, Told, Packets, Sends;
      AgentsHold(x);
      ghost var a := y.agents.At(x);
      HandleAt(x, body, w, a, y.agents.At(x.Other()));
      acts, y := acts + [DeliverDown(x, w)], Next(server.config, y, DeliverDown(x, w));
      AgentActed(DeliverDown(x, w));
      AgentsHold(x);
      HeardLogs(PeerOf(x), PeerOf(x.Other()), old(y), x, w);
      assert At(x.Other()).sent + [] == At(x.Other()).sent && At(x.Other()).wire + [] == At(x.Other()).wire;
      assert x.Lo? || x.Hi?;
      AgentTold(DeliverDown(x, w));
    }

    /** A datagram reaches a probe socket of end x, open or not. */
    method Receives(x: Side, id: nat, d: Datagram)
      requires Valid() && Enabled(y, Network(x, id, d))
      modifies this`acts, this`y, At(x).sockets.Values
      ensures Valid() && acts == old(acts) + [Network(x, id, d)]
    {
      hide Negotiate.Slice, Negotiate.Valid, Server.Slice, Server.Valid, Came, Agents, Past, Servers, Holds, OnDatagram,
           Told;
      AgentsHold(x);
      ArriveAt(x, id, d.nonce, y.agents.At(x), y.agents.At(x.Other()));
      acts, y := acts + [Network(x, id, d)], Next(server.config, y, Network(x, id, d));
      AgentActed(Network(x, id, d));
      StillTold(Network(x, id, d));
      AgentsHold(x);
    }

    /** A go loop of end x ends. */
    method Finishes(x: Side, id: nat, success: bool)
      requires Valid() && Enabled(y, LoopEnds(x, id, success))
      modifies this`acts, this`y, At(x), At(x).sockets.Values
      ensures Valid() && acts == old(acts) + [LoopEnds(x, id, success)]
    {
      hide Negotiate.Slice, Negotiate.Valid, Server.Slice, Server.Valid, Came, Agents, Past, Servers, OnLoopEnd, Holds,
           Told;
      AgentsHold(x);
      EndLoopAt(x, id, success, y.agents.At(x), y.agents.At(x.Other()));
      acts, y := acts + [LoopEnds(x, id, success)], Next(server.config, y, LoopEnds(x, id, success));
      AgentActed(LoopEnds(x, id, success));
      AgentsHold(x);
      FinishedLogs(PeerOf(x), PeerOf(x.Other()), old(y), x, id, success);
      assert At(x).wire + [] == At(x).wire;
      assert At(x.Other()).sent + [] == At(x.Other()).sent && At(x.Other()).wire + [] == At(x.Other()).wire;
      assert x.Lo? || x.Hi?;
      AgentTold(LoopEnds(x, id, success));
    }

    /** The WebSocket of end x closes at the agent. */
    method Loses(x: Side)
      requires Valid()
      modifies this`acts, this`y, At(x), At(x).sockets.Values, At(x).monitor
      ensures Valid() && acts == old(acts) + [AgentDisconnects(x)]
    {
      hide Negotiate.Slice, Negotiate.Valid, Server.Slice, Server.Valid, Came, Agents, Past, Servers, OnDisconnect,
           Told;
      AgentsHold(x);
      Disconnected(At(x), At(x.Other()));
      acts, y := acts + [AgentDisconnects(x)], Next(server.config, y, AgentDisconnects(x));
      AgentActed(AgentDisconnects(x));
      StillTold(AgentDisconnects(x));
      AgentsHold(x);
    }

    /** The monitor of end x ticks. */
    method Ticks(x: Side, now: nat, rx: map<PeerId, nat>)
      requires Valid()
      modifies this`acts, this`y, At(x).monitor, At(x).monitor.peerStates.Values
      ensures Valid() && (acts == old(acts) || acts == old(acts) + [Thaws(x)])
    {
      hide Negotiate.Slice, Negotiate.Valid, Server.Slice, Server.Valid, Came, Agents, Past, Servers, Told;
      AgentsHold(x);
      var thawed := TickApart(At(x), At(x.Other()), PeerOf(x), now, rx);
      if thawed {
        acts, y := acts + [Thaws(x)], Next(server.config, y, Thaws(x));
        AgentActed(Thaws(x));
        StillTold(Thaws(x));
      }
      AgentsHold(x);
    }

    /** What end x has under way to the server is lost. */
    ghost method LosesUp(x: Side)
      requires Valid()
      modifies this`acts, this`y
      ensures Valid() && acts == old(acts) + [CutUp(x)]
    {
      hide Negotiate.Slice, Negotiate.Valid, Server.Slice, Server.Valid, Came, Servers, Told;
      acts, y := acts + [CutUp(x)], Next(server.config, y, CutUp(x));
      AgentActed(CutUp(x));
      StillTold(CutUp(x));
    }

    /** The agent of end x handles a message about some other peer. */
    method HearsOther(x: Side, q: PeerId, body: Body, w: World)
      requires Valid() && q != PeerOf(x) && w.id !in At(x).sockets
      modifies At(x), At(x).sockets.Values, At(x).monitor, At(x).monitor.peerStates.Values
      ensures Valid() && acts == old(acts)
    {
      hide Negotiate.Slice, Negotiate.Valid, OnMessage, Reply, Server.Slice, Server.Valid, Servers, Reachable, After,
           Sends, Logged;
      ghost var a := At(x).Slice(q);
      OthersPackets(q, a, body);
      LoggedBeside(At(x).sent, At(x).wire, PeerOf(x), x, Said(server.config, acts, x), y.past.flying, q,
                   Reply(a, Lo, body, w), Packets(q, a, body));
      Handle(At(x), At(x.Other()), q, body, w);
    }

    // ----- what the server does -----

    /** After a call on its own account the server and the system are in step again. */
    ghost method Follow(h: seq<Input>, input: Input)
      requires Past() && p.Proper() && server.Valid() && server.history == h + [input] && Foreign(input, p)
      requires y.pair == Run(server.config, Project(h, p)) && Agents() && Told()
      modifies this`acts, this`y
      ensures Valid() && acts == old(acts) + ServerActs(TimedOf(input, p))
    {
      hide Negotiate.Slice, Server.Slice, Came, Run, RunFrom, Project, TimedOf, Less, Said, Logged;
      ForeignIsOwn(input, p);
      ProjectExtend(server.config, h, input, p);
      Stands(server, p);
      var y' := ServerRunsOn(server.config, acts, y, TimedOf(input, p));
      acts, y := acts + ServerActs(TimedOf(input, p)), y';
    }

    lemma StoodAt()
      requires Servers()
      ensures y.pair == Run(server.config, Project(server.history, p))
    {
    }

    /** A message from an agent of another pair, or a health report. */
    method TakesReport(from: PeerId, msg: AgentMessage, now: nat, loFirst: set<Pair>)
      requires Valid() && (msg.HealthReportMsg? || PairOf(from, msg.other) != p)
      modifies this`acts, this`y, server, server.pairHealthMap.Values
      ensures Valid()
      ensures acts == old(acts) + ServerActs(TimedOf(old(server.InputAt(now, loFirst, Message(from, msg))), p))
    {
      hide Negotiate.Slice, Negotiate.Valid, Server.Slice, Server.Inv, Server.Keyed, Came, Run, Project, TimedOf, Less,
           PairOf;
      ghost var h, input := server.history, server.InputAt(now, loFirst, Message(from, msg));
      StoodAt();
      server.HandleNegotiateMessage(from, msg, now, loFirst);
      Follow(h, input);
    }

    /** A peer's socket opens. */
    method Opens(peer: PeerId, socket: nat, now: nat)
      requires Valid()
      modifies this`acts, this`y, server`connections, server`history
      ensures Valid() && acts == old(acts) + ServerActs(TimedOf(old(server.InputAt(now, {}, Opened(peer))), p))
    {
      hide Negotiate.Slice, Negotiate.Valid, Server.Slice, Server.Inv, Server.Keyed, Came, Run, Project, TimedOf, Less;
      ghost var h, input := server.history, server.InputAt(now, {}, Opened(peer));
      StoodAt();
      server.OnOpen(peer, socket, now);
      Follow(h, input);
    }

    /** A peer's socket closes. */
    method Closes(peer: PeerId, now: nat)
      requires Valid()
      modifies this`acts, this`y, server
      ensures Valid() && acts == old(acts) + ServerActs(TimedOf(old(server.InputAt(now, {}, Closed(peer))), p))
    {
      hide Negotiate.Slice, Negotiate.Valid, Server.Slice, Server.Inv, Server.Keyed, Came, Run, Project, TimedOf, Less;
      ghost var h, input := server.history, server.InputAt(now, {}, Closed(peer));
      StoodAt();
      server.OnClose(peer, now);
      Follow(h, input);
    }

    /** A timer that is due fires. */
    method Fires(id: nat, now: nat)
      requires Valid() && id in server.timers && TimerOf(server.timers[id]).deadline <= now
      modifies this`acts, this`y, server, server.pairHealthMap.Values
      ensures Valid()
      ensures acts == old(acts) + ServerActs(TimedOf(old(server.InputAt(now, {}, Fired(server.timers[id].key))), p))
    {
      hide Negotiate.Slice, Negotiate.Valid, Server.Slice, Server.Inv, Server.Keyed, Came, Run, Project, TimedOf, Less;
      ghost var h, input := server.history, server.InputAt(now, {}, Fired(server.timers[id].key));
      StoodAt();
      server.OnTimer(id, now);
      Follow(h, input);
    }

    /** The sweep. */
    method Sweeps(now: nat, ghost loFirst: set<Pair>)
      requires Valid()
      modifies this`acts, this`y, server, server.pairHealthMap.Values
      ensures Valid() && acts == old(acts) + ServerActs(TimedOf(old(server.InputAt(now, loFirst, Swept)), p))
    {
      hide Negotiate.Slice, Negotiate.Valid, Server.Slice, Server.Inv, Server.Keyed, Came, Run, Project, TimedOf, Less;
      ghost var h, input := server.history, server.InputAt(now, loFirst, Swept);
      StoodAt();
      server.StaleSweep(now, loFirst);
      Follow(h, input);
    }

    /** A force command for any two peers. */
    method Commands(a: PeerId, b: PeerId, target: Option<Forced>, now: nat)
      requires Valid()
      modifies this`acts, this`y, server, server.pairHealthMap.Values
      ensures Valid()
      ensures acts == old(acts) + ServerActs(TimedOf(old(server.InputAt(now, {}, Negotiator.Call.Forces(a, b, target))),
                                                     p))
    {
      hide Negotiate.Slice, Negotiate.Valid, Server.Slice, Server.Inv, Server.Keyed, Came, Run, Project, TimedOf, Less;
      ghost var h, input := server.history, server.InputAt(now, {}, Negotiator.Call.Forces(a, b, target));
      StoodAt();
      server.OnForceMode(a, b, target, now);
      Follow(h, input);
    }

    /** A peer is deleted. */
    method Deletes(peer: PeerId, now: nat)
      requires Valid()
      modifies this`acts, this`y, server
      ensures Valid() && acts == old(acts) + ServerActs(TimedOf(old(server.InputAt(now, {}, Deleted(peer))), p))
    {
      hide Negotiate.Slice, Negotiate.Valid, Server.Slice, Server.Inv, Server.Keyed, Came, Run, Project, TimedOf, Less;
      ghost var h, input := server.history, server.InputAt(now, {}, Deleted(peer));
      StoodAt();
      server.OnDeletePeer(peer, now);
      Follow(h, input);
    }

    /** The server restarts. */
    method Restarts(now: nat)
      requires Valid()
      modifies this`acts, this`y, server
      ensures Valid() && acts == old(acts) + ServerActs(TimedOf(old(server.InputAt(now, {}, Restarted)), p))
    {
      hide Negotiate.Slice, Negotiate.Valid, Server.Slice, Server.Inv, Server.Keyed, Came, Run, Project, TimedOf, Less;
      ghost var h, input := server.history, server.InputAt(now, {}, Restarted);
      StoodAt();
      server.OnRestart(now);
      Follow(h, input);
    }

    /** A pass of the reaper. */
    method Reaps(now: nat, commits: bool) returns (expired: seq<PeerId>)
      requires Valid()
      modifies this`acts, this`y, server
      ensures Valid()
      ensures acts == old(acts) + if expired == [] then []
                                  else ServerActs(TimedOf(old(server.InputAt(now, {}, Reaped(expired, commits))), p))
    {
      hide Negotiate.Slice, Negotiate.Valid, Server.Slice, Server.Inv, Server.Keyed, Came, Run, Project, TimedOf, Less;
      ghost var h, tables := server.history, (server.peers, server.relayEnabled);
      StoodAt();
      expired := Reap(server, now, commits);
      if expired != [] {
        Follow(h, Input(now, tables.0, tables.1, {}, Reaped(expired, commits)));
      } else {
        assert h + [] == h && acts + [] == acts;
        Unmoved(h);
      }
    }

    /** Peers register or are updated, relay is switched, ports are reported. */
    method TablesChange(peers: map<PeerId, PeerRow>, relay: map<string, bool>, ports: map<(PeerId, PeerId), nat>)
      requires Valid() && server.peers.Keys <= peers.Keys
      requires forall k :: k in ports ==> k.0 in peers && k.1 in peers
      modifies server`peers, server`relayEnabled, server`ports
      ensures Valid() && acts == old(acts)
    {
      hide Negotiate.Slice, Negotiate.Valid, Server.Slice, Server.Inv, Server.Keyed, Came, Run, Project, Less;
      ghost var h := server.history;
      StoodAt();
      server.OnTables(peers, relay, ports);
      Unmoved(h);
    }

    lemma Unmoved(h: seq<Input>)
      requires Past() && p.Proper() && server.Valid() && server.history == h && Agents() && Told()
      requires y.pair == Run(server.config, Project(h, p))
      ensures Valid()
    {
      Stands(server, p);
    }

    /** The agents do not change with a step of the server. */
    twostate lemma AgentsStayed()
      requires old(Agents()) && y.agents == old(y.agents)
      requires unchanged(lo) && unchanged(lo.sockets.Values) && unchanged(lo.monitor)
      requires unchanged(lo.monitor.peerStates.Values)
      requires unchanged(hi) && unchanged(hi.sockets.Values) && unchanged(hi.monitor)
      requires unchanged(hi.monitor.peerStates.Values)
      ensures Agents()
    {
    }

    /** The server handles a message of end x, which has the pair's run lead to `pair`. */
    method Post(x: Side, msg: AgentMessage, now: nat, loFirst: set<Pair>, ghost pair: PairState)
      requires p.Proper() && server.Valid()
      requires var input := server.InputAt(now, loFirst, Message(End(p, x), msg));
               Run(server.config, Project(server.history + [input], p)) == pair
      modifies server, server.pairHealthMap.Values
      ensures server.Valid() && server.Slice(p) == pair
    {
      hide Server.Slice, Server.Inv, Server.Keyed, Server.Refines, Run, Project, Less;
      server.HandleNegotiateMessage(End(p, x), msg, now, loFirst);
      Stands(server, p);
    }

    /** The server takes the next message that end x has under way to it. */
    method TakesAnswer(x: Side, msg: AgentMessage, now: nat, loFirst: set<Pair>)
      requires Valid() && y.up.At(x) != [] && ToServer(PeerOf(x), y.up.At(x)[0]) == [msg]
      requires FromAgent(y.up.At(x)[0]) && y.up.At(x)[0].from == x
      modifies this`acts, this`y, server, server.pairHealthMap.Values
      ensures Valid() && acts == old(acts) + [DeliverUp(x, old(server.EnvAt(now, loFirst, p)))]
    {
      hide Negotiate.Slice, Negotiate.Valid, Server.Slice, Server.Valid, Came, Run, Project, Less, Step, Agents,
           EventsOfMessage, Next, Told, ToServer, FromAgent;
      ghost var h, input := server.history, server.InputAt(now, loFirst, Message(End(p, x), msg));
      ghost var a := DeliverUp(x, server.EnvAt(now, loFirst, p));
      StoodAt();
      CameOn(server.config, acts, y, a);
      AnswerMoves(server.config, h, input, p, x, y, a.env, msg);
      Post(x, msg, now, loFirst, Next(server.config, y, a).pair);
      acts, y := acts + [a], Next(server.config, y, a);
      AgentsStayed();
      StillTold(a);
    }
  }

  /** What handling a message adds to the two agents' logs. */
  lemma HeardLogs(peer: PeerId, other: PeerId, y: Sys, x: Side, w: World)
    requires Enabled(y, DeliverDown(x, w))
    ensures Sends(peer, Says(y, DeliverDown(x, w), x)) == Sends(peer, Reply(y.agents.At(x), Lo, y.down.At(x)[0], w))
    ensures Puts(peer, y, DeliverDown(x, w), x) == Packets(peer, y.agents.At(x), y.down.At(x)[0])
    ensures Sends(other, Says(y, DeliverDown(x, w), x.Other())) == []
    ensures Puts(other, y, DeliverDown(x, w), x.Other()) == []
  {
    SameWords(peer, y.agents.At(x), x, y.down.At(x)[0], w);
  }

  lemma FinishedLogs(peer: PeerId, other: PeerId, y: Sys, x: Side, id: nat, success: bool)
    requires Enabled(y, LoopEnds(x, id, success))
    ensures Sends(peer, Says(y, LoopEnds(x, id, success), x)) == Sends(peer, [DirectResult(Lo, success)])
    ensures Puts(peer, y, LoopEnds(x, id, success), x) == []
    ensures Puts(other, y, LoopEnds(x, id, success), x.Other()) == []
    ensures Sends(other, Says(y, LoopEnds(x, id, success), x.Other())) == []
  {
  }

  lemma OthersPackets(q: PeerId, a: Agent, body: Body)
    ensures forall k :: k in Packets(q, a, body) ==> k.peer == q
  {
  }

  /** What a message from an end is for the run of its pair and for the system. */
  lemma AnswerMoves(c: Config, h: seq<Input>, input: Input, p: Pair, x: Side, y: Sys, e: Env, msg: AgentMessage)
    requires p.Proper() && input.call == Message(End(p, x), msg)
    requires e == EnvOf(input.peers, input.relayEnabled, input.now, input.loFirst, p)
    requires y.pair == Run(c, Project(h, p)) && y.up.At(x) != []
    requires var ev := y.up.At(x)[0]; FromAgent(ev) && ev.from == x && ToServer(End(p, x.Other()), ev) == [msg]
    ensures Next(c, y, DeliverUp(x, e)).pair == Run(c, Project(h + [input], p))
    ensures Next(c, y, DeliverUp(x, e)).agents == y.agents
  {
    hide Run, RunFrom, Project, Less, Step, EventsOfMessage, Stamp;
    var ev := y.up.At(x)[0];
    MessageIsEvent(input.peers, p, x, ev, msg);
    ProjectExtend(c, h, input, p);
    RunStampOne(c, y.pair, e, ev);
  }

  // ----- the end-to-end results, of objects -----

  /** The evidence of end x, with what the objects hold of it: the two gos are in the server's outbox, the announced
      nonces and ports in what the two agents sent, and the datagram on the other agent's wire. */
  ghost predicate Witnessed(m: Mesh, x: Side, d: Datagram, go: Sent, back: Sent)
    reads m`y, m.server`outbox, m.lo`sent, m.lo`wire, m.hi`sent, m.hi`wire
  {
    var mine, other := m.At(x), m.At(x.Other());
    && Crossed(FactsOf(m.y), x, d, go, back)
    && go in LogOf(m.server.outbox, m.p) && back in LogOf(m.server.outbox, m.p)
    && Packet(End(m.p, x), d.ip, d.port, d.nonce) in other.wire
    && DirectReadyMsg(End(m.p, x), Tells(go)) in other.sent
    && DirectReadyMsg(End(m.p, x.Other()), Tells(back)) in mine.sent
  }

  lemma EvidenceIsWitnessed(m: Mesh, x: Side, d: Datagram, go: Sent, back: Sent)
    requires m.Valid() && Crossed(FactsOf(m.y), x, d, go, back)
    ensures Witnessed(m, x, d, go, back)
  {
    hide LogOf, Mesh.Agents, Server.Inv, Server.Keyed, Server.Refines, Reachable, After, Logged, About, Sends, Said;
    var c := m.server.config;
    assert m.server.Slice(m.p).log == LogOf(m.server.outbox, m.p);
    GoodRun(c, m.acts);
    AnnouncementLogged(c, m.acts, Lo, m.p.hi, m.lo.sent, m.lo.wire, if x.Lo? then Tells(back) else Tells(go));
    AnnouncementLogged(c, m.acts, Hi, m.p.lo, m.hi.sent, m.hi.wire, if x.Lo? then Tells(go) else Tells(back));
    SentIsLogged(m, x.Other(), d);
  }

  lemma SentIsLogged(m: Mesh, z: Side, d: Datagram)
    requires m.Told() && d in m.y.past.flying && d.from == z
    ensures Packet(End(m.p, z.Other()), d.ip, d.port, d.nonce) in m.At(z).wire
  {
    hide About, Sends, Said, Reachable, After;
  }

  /** Evidence for switch-direct, of a server and two agents: once the server has pushed such a verdict for the
      pair, each end has received a datagram with the nonce the other announced for it, and the objects bear witness
      to the announcements, the gos and the sending. */
  lemma PushedDirectVerdictsAreFounded(m: Mesh, sent: Sent)
    requires m.Valid() && sent in LogOf(m.server.outbox, m.p) && sent.body == ProbeVerdict(SwitchDirect)
    ensures exists d, go, back :: Witnessed(m, Lo, d, go, back)
    ensures exists d, go, back :: Witnessed(m, Hi, d, go, back)
  {
    hide LogOf, Mesh.Agents, Server.Inv, Server.Keyed, Server.Refines, Reachable, After, Crossed, Witnessed, Logged;
    assert m.server.Slice(m.p).log == LogOf(m.server.outbox, m.p);
    SwitchDirectIsFounded(m.server.config, m.acts, sent);
    var d, go, back :| Crossed(FactsOf(m.y), Lo, d, go, back);
    EvidenceIsWitnessed(m, Lo, d, go, back);
    var d', go', back' :| Crossed(FactsOf(m.y), Hi, d', go', back');
    EvidenceIsWitnessed(m, Hi, d', go', back');
  }

  /** Quiescent agreement, of a server and two agents: if no act has set the ends apart and nothing is under way,
      the two monitors hold the same mode for each other's peer. */
  lemma MonitorsAgree(m: Mesh)
    requires m.Valid()
    requires Agreement.AlwaysKeeps(m.server.config, START, m.acts) && Agreement.Drained(m.y)
    requires m.p.hi in m.lo.monitor.peerStates && m.p.lo in m.hi.monitor.peerStates
    ensures m.lo.monitor.peerStates[m.p.hi].mode == m.hi.monitor.peerStates[m.p.lo].mode
  {
    hide LogOf, Server.Valid, Server.Slice, Reachable, After, Agreement.AlwaysKeeps;
    Agreement.QuiescentAgreement(m.server.config, m.acts);
  }

  /** No probe left behind, of a server and two agents: if every act has kept its condition, the server holds no
      negotiation for the pair and nothing is under way, a connected peer's agent has the other neither frozen nor
      in a probe slot. */
  lemma MonitorsAreThawed(m: Mesh)
    requires m.Valid()
    requires Quiescence.AlwaysClears(m.server.config, START, m.acts) && Agreement.Drained(m.y)
    requires m.p !in m.server.activeNegotiations
    ensures m.p.lo in m.server.connections ==> m.p.hi !in m.lo.monitor.frozenPeers && m.p.hi !in m.lo.udpProbeSockets
    ensures m.p.hi in m.server.connections ==> m.p.lo !in m.hi.monitor.frozenPeers && m.p.lo !in m.hi.udpProbeSockets
  {
    hide LogOf, Server.Inv, Server.Keyed, Server.Refines, Reachable, After, Quiescence.AlwaysClears;
    Quiescence.NoProbeLeftBehind(m.server.config, m.acts);
    assert m.y.pair.neg.None?;
    assert m.p.lo in m.server.connections ==> Quiescence.Clean(m.y.agents.At(Lo))
           by { assert m.y.pair.Connected(Lo) == (m.p.lo in m.server.connections); }
    assert m.p.hi in m.server.connections ==> Quiescence.Clean(m.y.agents.At(Hi))
           by { assert m.y.pair.Connected(Hi) == (m.p.hi in m.server.connections); }
  }
}
