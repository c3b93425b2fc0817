/** The server's machine for a pair, the two agents at its ends, and the channels between them. */
module System {
  import opened Common
  import opened PairMachine
  import opened AgentMachine
  import opened Sessions

  datatype Datagram = Datagram(from: Side, ip: string, port: nat, nonce: string)

  datatype Both<T> = Both(lo: T, hi: T) {
    function At(x: Side): T { if x.Lo? then lo else hi }
    function Put(x: Side, t: T): Both<T> { if x.Lo? then Both(t, hi) else Both(lo, t) }
  }

  /** The past of the nonces: whose each one is, what each end has announced to the server for direct probes, the
      datagrams sent, and those each end received. */
  datatype Past = Past(issued: map<string, Side>, announced: Both<set<Ready>>, flying: set<Datagram>,
                       got: Both<set<Datagram>>)

  datatype Sys = Sys(pair: PairState, agents: Both<Agent>, down: Both<seq<Body>>, up: Both<seq<Event>>, past: Past)

  /** What can happen. Everything an agent says to the server goes through its channel; health reports are free. */
  datatype Act =
    | ServerAct(t: Timed)
    | DeliverUp(x: Side, env: Env)
    | DeliverDown(x: Side, w: World)
    | Network(x: Side, id: nat, d: Datagram)
    | LoopEnds(x: Side, id: nat, success: bool)
    | AgentDisconnects(x: Side)
    | CutUp(x: Side)
    | Thaws(x: Side)

  predicate FromAgent(ev: Event) {
    ev.RelayReady? || ev.RelayResult? || ev.DirectReady? || ev.DirectResult? || ev.ProbeError?
  }

  /** The messages of a stretch of the log that reach end x. */
  function Delivered(log: seq<Sent>, x: Side): seq<Body> {
    if log == [] then []
    else
      var m := log[|log| - 1];
      Delivered(log[..|log| - 1], x) + (if m.to == x && m.delivered then [m.body] else [])
  }

  lemma DeliveredOne(a: Sent, x: Side)
    ensures Delivered([a], x) == if a.to == x && a.delivered then [a.body] else []
  {
    assert [a][..|[a]| - 1] == [];
  }

  lemma DeliveredTwo(a: Sent, b: Sent, x: Side)
    ensures Delivered([a, b], x) == (if a.to == x && a.delivered then [a.body] else [])
            + (if b.to == x && b.delivered then [b.body] else [])
  {
    DeliveredOne(a, x);
    assert [a, b][..|[a, b]| - 1] == [a];
  }

  /** What is under way to an end is lost when its socket closes or is replaced, and everything at a restart. */
  function DownAfter(q: Both<seq<Body>>, ev: Event): Both<seq<Body>> {
    match ev
    case Restart => Both([], [])
    case Close(x) => q.Put(x, [])
    case Connect(x) => q.Put(x, [])
    case _ => q
  }

  /** The server still takes what comes in on a socket that was replaced or is closing; only a restart is sure to
      lose it, and CutUp may at any time. */
  function UpAfter(q: Both<seq<Event>>, ev: Event): Both<seq<Event>> {
    if ev.Restart? then Both([], []) else q
  }

  function ServerMoves(c: Config, y: Sys, t: Timed): Sys {
    var s' := Step(c, y.pair, t);
    var added := Added(y.pair, s');
    var down := DownAfter(y.down, t.ev);
    y.(pair := s', up := UpAfter(y.up, t.ev),
       down := Both(down.lo + Delivered(added, Lo), down.hi + Delivered(added, Hi)))
  }

  /** A probe socket's nonce, announced with its port if there is a socket. */
  function Issue(k: Past, x: Side, w: World): Past {
    k.(issued := k.issued[w.nonce := x],
       announced := if w.bindOk then k.announced.Put(x, k.announced.At(x) + {Ready(w.port, w.nonce)}) else k.announced)
  }

  /** The agent handles the next message; a fresh nonce is recorded as its own, and a go puts its nonce on the
      wire for the address it was told. */
  function AgentMoves(y: Sys, x: Side, w: World): Sys
    requires y.down.At(x) != []
  {
    var body := y.down.At(x)[0];
    var a := y.agents.At(x);
    var y1 := y.(agents := y.agents.Put(x, OnMessage(a, body, w)),
                 down := y.down.Put(x, y.down.At(x)[1..]),
                 up := y.up.Put(x, y.up.At(x) + Reply(a, x, body, w)));
    match body
    case ProbeRelayServe => y1.(past := y.past.(issued := y.past.issued[w.nonce := x]))
    case ProbeDirectStart => y1.(past := Issue(y.past, x, w))
    case ProbeDirectGo(ip, port, _) =>
      if a.slot.Some? && a.slot.value in a.entries
      then y1.(past := y.past.(flying := y.past.flying + {Datagram(x, ip, port, a.entries[a.slot.value].nonce)}))
           else y1
    case _ => y1
  }

  predicate Enabled(y: Sys, a: Act) {
    match a
    case ServerAct(t) => !FromAgent(t.ev)
    case DeliverUp(x, _) => y.up.At(x) != []
    case DeliverDown(x, w) => y.down.At(x) != [] && w.nonce !in y.past.issued && w.id !in y.agents.At(x).entries
    case Network(x, id, d) => d in y.past.flying && id in y.agents.At(x).entries
                              && y.agents.At(x).entries[id].port == d.port
    case LoopEnds(x, id, ok) => id in y.agents.At(x).loops && id in y.agents.At(x).entries
                                && (ok ==> y.agents.At(x).entries[id].resolved)
    case AgentDisconnects(_) => true
    case CutUp(_) => true
    case Thaws(_) => true
  }

  function Receive(k: Past, x: Side, d: Datagram): Past {
    k.(got := k.got.Put(x, k.got.At(x) + {d}))
  }

  function Next(c: Config, y: Sys, a: Act): Sys
    requires Enabled(y, a)
  {
    match a
    case ServerAct(t) => ServerMoves(c, y, t)
    case DeliverUp(x, env) => ServerMoves(c, y.(up := y.up.Put(x, y.up.At(x)[1..])), Timed(env, y.up.At(x)[0]))
    case DeliverDown(x, w) => AgentMoves(y, x, w)
    case Network(x, id, d) => y.(agents := y.agents.Put(x, OnDatagram(y.agents.At(x), id, d.nonce)),
                                 past := if y.agents.At(x).entries[id].open then Receive(y.past, x, d) else y.past)
    case LoopEnds(x, id, ok) => y.(agents := y.agents.Put(x, OnLoopEnd(y.agents.At(x), id)),
                                   up := y.up.Put(x, y.up.At(x) + [DirectResult(x, ok)]))
    case AgentDisconnects(x) => y.(agents := y.agents.Put(x, OnDisconnect(y.agents.At(x))))
    case CutUp(x) => y.(up := y.up.Put(x, []))
    case Thaws(x) => y.(agents := y.agents.Put(x, Unfreeze(y.agents.At(x))))
  }

  predicate Reachable(c: Config, y0: Sys, acts: seq<Act>)
    decreases |acts|, 0
  {
    acts == [] || (Reachable(c, y0, acts[..|acts| - 1]) && Enabled(After(c, y0, acts[..|acts| - 1]), acts[|acts| - 1]))
  }

  /** The system after the acts of a run. */
  function After(c: Config, y0: Sys, acts: seq<Act>): Sys
    requires Reachable(c, y0, acts)
    decreases |acts|, 1
  {
    if acts == [] then y0 else Next(c, After(c, y0, acts[..|acts| - 1]), acts[|acts| - 1])
  }

  lemma AfterOneMore(c: Config, b: Sys, acts: seq<Act>, a: Act)
    requires Reachable(c, b, acts) && Enabled(After(c, b, acts), a)
    ensures Reachable(c, b, acts + [a]) && After(c, b, acts + [a]) == Next(c, After(c, b, acts), a)
  {
    hide Next, Enabled;
    assert (acts + [a])[..|acts + [a]| - 1] == acts;
  }

  // ----- new nonces and handles -----

  lemma {:induction false} LongerThan(s: set<string>) returns (n: nat)
    ensures forall t :: t in s ==> |t| < n
    decreases |s|
  {
    if s == {} {
      n := 0;
    } else {
      var t :| t in s;
      var m := LongerThan(s - {t});
      n := if |t| < m then m else |t| + 1;
    }
  }

  lemma {:induction false} GreaterThan(s: set<nat>) returns (n: nat)
    ensures forall k :: k in s ==> k < n
    decreases |s|
  {
    if s == {} {
      n := 0;
    } else {
      var t :| t in s;
      var m := GreaterThan(s - {t});
      n := if t < m then m else t + 1;
      assert forall k :: k in s ==> k == t || k in s - {t};
    }
  }

  /** There always is a nonce and a handle not used before. */
  lemma PickWorld(y: Sys, x: Side) returns (w: World)
    ensures w.bindOk && w.nonce !in y.past.issued && w.id !in y.agents.At(x).entries
  {
    var n := LongerThan(y.past.issued.Keys);
    var id := GreaterThan(y.agents.At(x).entries.Keys);
    var nonce := seq(n, i => 'n');
    w := World(0, true, id, 1, nonce, true, "");
  }

  // ----- deliveries alone -----

  /** The agents handling what is under way to them can lead from y to y'. */
  ghost predicate Handling(c: Config, y: Sys, y': Sys) {
    exists acts: seq<Act> :: (forall i :: 0 <= i < |acts| ==> acts[i].DeliverDown?)
                             && Reachable(c, y, acts) && After(c, y, acts) == y'
  }

  lemma HandlingSelf(c: Config, y: Sys)
    ensures Handling(c, y, y)
  {
    var acts: seq<Act> := [];
    assert Reachable(c, y, acts) && After(c, y, acts) == y;
  }

  lemma HandlingNext(c: Config, y0: Sys, y: Sys, x: Side, w: World)
    requires Handling(c, y0, y) && Enabled(y, DeliverDown(x, w))
    ensures Handling(c, y0, AgentMoves(y, x, w))
  {
    hide Enabled, AgentMoves;
    var acts: seq<Act> :| (forall i :: 0 <= i < |acts| ==> acts[i].DeliverDown?)
                          && Reachable(c, y0, acts) && After(c, y0, acts) == y;
    AfterOneMore(c, y0, acts, DeliverDown(x, w));
  }

  /** Everything at rest: nothing sent, nothing known of each other's probes. */
  const START := Sys(INIT, Both(IDLE, IDLE), Both([], []), Both([], []), Past(map[], Both({}, {}), {}, Both({}, {})))
}
