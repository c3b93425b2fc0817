/** What an agent has ever said to the server and put on the wire, as a function of the acts so far; and how its own
    logs hold it. */
module Transcript {
  import opened Common
  import opened PairKeys
  import opened PairMachine
  import opened AgentMachine
  import opened AgentHandlers
  import opened System
  import Negotiator

  type AgentMessage = Negotiator.AgentMessage

  // ----- on values -----

  /** What an act gives the channel from end x to the server. */
  function Says(y: Sys, a: Act, x: Side): seq<Event>
    requires Enabled(y, a)
  {
    match a
    case DeliverDown(z, w) => if z == x then Reply(y.agents.At(x), x, y.down.At(x)[0], w) else []
    case LoopEnds(z, _, ok) => if z == x then [DirectResult(x, ok)] else []
    case _ => []
  }

  /** The channel q has become q', which gained `more` and lost at most from its head. */
  ghost predicate Gained(q: seq<Event>, q': seq<Event>, more: seq<Event>) {
    exists k :: 0 <= k <= |q| && q' == q[k..] + more
  }

  lemma WaysToGain(q: seq<Event>, more: seq<Event>)
    ensures Gained(q, q + more, more) && Gained(q, more, more)
    ensures q != [] ==> Gained(q, q[1..], [])
  {
    assert q[0..] == q && q[|q|..] + more == more;
    if q != [] { assert q[1..] == q[1..] + []; }
  }

  /** The channel gains just that, and loses at most from its head. */
  lemma ChannelGains(c: Config, y: Sys, a: Act, x: Side)
    requires Enabled(y, a)
    ensures Gained(y.up.At(x), Next(c, y, a).up.At(x), Says(y, a, x))
  {
    hide Step, OnMessage, Reply, OnDatagram, OnLoopEnd, OnDisconnect, Gained, Delivered;
    var q, more := y.up.At(x), Says(y, a, x);
    WaysToGain(q, more);
    assert q + [] == q;
    match a
    case ServerAct(_) =>
    case DeliverUp(_, _) =>
    case DeliverDown(_, _) =>
    case _ =>
  }

  /** Everything end x has said in a run from the start. */
  function Said(c: Config, acts: seq<Act>, x: Side): seq<Event>
    requires Reachable(c, START, acts)
    decreases |acts|
  {
    if acts == [] then []
    else Said(c, acts[..|acts| - 1], x) + Says(After(c, START, acts[..|acts| - 1]), acts[|acts| - 1], x)
  }

  lemma SaidOn(c: Config, acts: seq<Act>, a: Act, x: Side)
    requires Reachable(c, START, acts) && Enabled(After(c, START, acts), a)
    ensures Reachable(c, START, acts + [a])
    ensures Said(c, acts + [a], x) == Said(c, acts, x) + Says(After(c, START, acts), a, x)
  {
    hide Next, Enabled, Says;
    AfterOneMore(c, START, acts, a);
    assert (acts + [a])[..|acts + [a]| - 1] == acts;
  }

  lemma StartAnnouncement(y: Sys, a: Act, x: Side, r: Ready)
    requires Enabled(y, a)
    ensures DirectReady(x, r) in Says(y, a, x) <==>
            a.DeliverDown? && a.x == x && y.down.At(x)[0].ProbeDirectStart? && a.w.bindOk
                && r == Ready(a.w.port, a.w.nonce)
  {
  }

  lemma AnnouncedNext(c: Config, y: Sys, a: Act, x: Side, r: Ready)
    requires Enabled(y, a)
    ensures r in Next(c, y, a).past.announced.At(x) <==>
            r in y.past.announced.At(x) || DirectReady(x, r) in Says(y, a, x)
  {
    hide Says, Step, OnMessage, Reply, OnDatagram, OnLoopEnd, OnDisconnect;
    StartAnnouncement(y, a, x, r);
  }

  /** What counts as announced is exactly what has been said. */
  lemma {:induction false} AnnouncedIsSaid(c: Config, acts: seq<Act>, x: Side, r: Ready)
    requires Reachable(c, START, acts)
    ensures r in After(c, START, acts).past.announced.At(x) <==> DirectReady(x, r) in Said(c, acts, x)
    decreases |acts|
  {
    if acts != [] {
      AnnouncedIsSaid(c, acts[..|acts| - 1], x, r);
      hide Next, Says, Enabled;
      AnnouncedNext(c, After(c, START, acts[..|acts| - 1]), acts[|acts| - 1], x, r);
    }
  }

  /** The datagrams an act has end x send. */
  function Puts(peer: PeerId, y: Sys, a: Act, x: Side): seq<Packet>
    requires Enabled(y, a)
  {
    if a.DeliverDown? && a.x == x then Packets(peer, y.agents.At(x), y.down.At(x)[0]) else []
  }

  lemma FlyingNext(c: Config, y: Sys, a: Act, x: Side, peer: PeerId, ip: string, port: nat, nonce: string)
    requires Enabled(y, a)
    ensures Datagram(x, ip, port, nonce) in Next(c, y, a).past.flying <==>
            Datagram(x, ip, port, nonce) in y.past.flying || Packet(peer, ip, port, nonce) in Puts(peer, y, a, x)
  {
    hide Step, OnMessage, Reply, OnDatagram, OnLoopEnd, OnDisconnect;
  }

  // ----- in an agent's logs -----

  predicate IsAbout(m: AgentMessage, peer: PeerId) { !m.HealthReportMsg? && m.other == peer }

  /** The messages about one peer. */
  function About(sent: seq<AgentMessage>, peer: PeerId): seq<AgentMessage> {
    if sent == [] then []
    else
      About(sent[..|sent| - 1], peer) + if IsAbout(sent[|sent| - 1], peer) then [sent[|sent| - 1]] else []
  }

  lemma {:induction false} AboutAppend(a: seq<AgentMessage>, b: seq<AgentMessage>, peer: PeerId)
    ensures About(a + b, peer) == About(a, peer) + About(b, peer)
    decreases |b|
  {
    if b == [] {
      assert a + b == a;
    } else {
      assert (a + b)[..|a + b| - 1] == a + b[..|b| - 1];
      AboutAppend(a, b[..|b| - 1], peer);
    }
  }

  lemma {:induction false} AboutIsSent(sent: seq<AgentMessage>, peer: PeerId)
    ensures forall m :: m in About(sent, peer) <==> m in sent && IsAbout(m, peer)
  {
    if sent != [] {
      AboutIsSent(sent[..|sent| - 1], peer);
      assert sent == sent[..|sent| - 1] + [sent[|sent| - 1]];
    }
  }

  lemma {:induction false} SendsAppend(peer: PeerId, a: seq<Event>, b: seq<Event>)
    ensures Sends(peer, a + b) == Sends(peer, a) + Sends(peer, b)
    decreases |a|
  {
    if a == [] {
      assert a + b == b;
    } else {
      assert (a + b)[1..] == a[1..] + b;
      SendsAppend(peer, a[1..], b);
    }
  }

  lemma {:induction false} SendsHas(peer: PeerId, evs: seq<Event>, r: Ready)
    requires exists x :: DirectReady(x, r) in evs
    ensures Negotiator.DirectReadyMsg(peer, r) in Sends(peer, evs)
    decreases |evs|
  {
    var x :| DirectReady(x, r) in evs;
    if evs[0] != DirectReady(x, r) {
      assert evs == [evs[0]] + evs[1..];
      SendsHas(peer, evs[1..], r);
    }
  }

  lemma AboutOne(m: AgentMessage, peer: PeerId)
    ensures About([m], peer) == if IsAbout(m, peer) then [m] else []
  {
    assert [m][..|[m]| - 1] == [];
  }

  /** An answer about one peer is nothing about another. */
  lemma {:induction false} AnswersAreAbout(q: PeerId, evs: seq<Event>, peer: PeerId)
    ensures About(Sends(q, evs), peer) == if q == peer then Sends(q, evs) else []
    decreases |evs|
  {
    if evs != [] {
      hide ToServer, About;
      AnswersAreAbout(q, evs[1..], peer);
      AboutAppend(ToServer(q, evs[0]), Sends(q, evs[1..]), peer);
      AnswerIsAbout(q, evs[0], peer);
    } else {
      assert Sends(q, evs) == [];
    }
  }

  lemma AnswerIsAbout(q: PeerId, ev: Event, peer: PeerId)
    ensures About(ToServer(q, ev), peer) == if q == peer then ToServer(q, ev) else []
  {
    var out := ToServer(q, ev);
    if out != [] {
      AboutOne(out[0], peer);
      assert out == [out[0]];
    }
  }

  /** A reply is sent in the same words from either end. */
  lemma SameWords(peer: PeerId, a: Agent, x: Side, body: Body, w: World)
    ensures Sends(peer, Reply(a, Lo, body, w)) == Sends(peer, Reply(a, x, body, w))
  {
  }

  /** An agent's logs hold about the peer just what was said and sent for it. */
  ghost predicate Logged(sent: seq<AgentMessage>, wire: seq<Packet>, peer: PeerId, x: Side, said: seq<Event>,
                         flying: set<Datagram>) {
    && About(sent, peer) == Sends(peer, said)
    && forall ip, port, nonce :: Packet(peer, ip, port, nonce) in wire <==> Datagram(x, ip, port, nonce) in flying
  }

  /** An act that adds to the logs what it says and puts on the wire keeps them so. */
  lemma LoggedNext(c: Config, acts: seq<Act>, y: Sys, a: Act, x: Side, peer: PeerId, sent: seq<AgentMessage>,
                   wire: seq<Packet>)
    requires Reachable(c, START, acts) && After(c, START, acts) == y && Enabled(y, a)
    requires Logged(sent, wire, peer, x, Said(c, acts, x), y.past.flying)
    ensures Reachable(c, START, acts + [a])
    ensures Logged(sent + Sends(peer, Says(y, a, x)), wire + Puts(peer, y, a, x), peer, x, Said(c, acts + [a], x),
                   Next(c, y, a).past.flying)
  {
    hide Reachable, After, Next, Enabled, Says, Puts, Said, Sends, About;
    SaidOn(c, acts, a, x);
    SendsAppend(peer, Said(c, acts, x), Says(y, a, x));
    AboutAppend(sent, Sends(peer, Says(y, a, x)), peer);
    AnswersAreAbout(peer, Says(y, a, x), peer);
    forall ip, port, nonce
      ensures Packet(peer, ip, port, nonce) in wire + Puts(peer, y, a, x) <==>
              Datagram(x, ip, port, nonce) in Next(c, y, a).past.flying
    {
      FlyingNext(c, y, a, x, peer, ip, port, nonce);
    }
  }

  /** What is said and sent about other peers leaves them so too. */
  lemma LoggedBeside(sent: seq<AgentMessage>, wire: seq<Packet>, peer: PeerId, x: Side, said: seq<Event>,
                     flying: set<Datagram>, q: PeerId, evs: seq<Event>, more: seq<Packet>)
    requires Logged(sent, wire, peer, x, said, flying) && q != peer
    requires forall k :: k in more ==> k.peer == q
    ensures Logged(sent + Sends(q, evs), wire + more, peer, x, said, flying)
  {
    hide Sends, About;
    AboutAppend(sent, Sends(q, evs), peer);
    AnswersAreAbout(q, evs, peer);
    assert About(sent, peer) + [] == About(sent, peer);
  }

  /** A logged announcement can be found. */
  lemma AnnouncementLogged(c: Config, acts: seq<Act>, x: Side, peer: PeerId, sent: seq<AgentMessage>, wire: seq<Packet>,
                           r: Ready)
    requires Reachable(c, START, acts) && r in After(c, START, acts).past.announced.At(x)
    requires Logged(sent, wire, peer, x, Said(c, acts, x), After(c, START, acts).past.flying)
    ensures Negotiator.DirectReadyMsg(peer, r) in sent
  {
    hide Reachable, After, Said, Sends, About;
    AnnouncedIsSaid(c, acts, x, r);
    SendsHas(peer, Said(c, acts, x), r);
    AboutIsSent(sent, peer);
  }
}
