/** How the server answers the ready messages of a probe, with the tables of the call written out. */
module Answers {
  import opened Common
  import opened PairKeys
  import opened PairMachine
  import opened Negotiator
  import opened Sessions
  import opened Readings
  import opened Handshakes

  /** A call that is one event of the pair is one step. */
  lemma OneStep(c: Config, h: seq<Input>, n: nat, p: Pair, ev: Event)
    requires n < |h| && EventsOf(h[n], p) == [ev]
    ensures var e := EnvOf(h[n].peers, h[n].relayEnabled, h[n].now, h[n].loFirst, p);
            && Run(c, Project(h[..n + 1], p)) == Step(c, Run(c, Project(h[..n], p)), Timed(e, ev))
            && PushedBy(c, h, n, p)
               == Added(Run(c, Project(h[..n], p)), Step(c, Run(c, Project(h[..n], p)), Timed(e, ev)))
  {
    hide Run, RunFrom, Project, Step, EventsOf, Stamp;
    assert h[..n + 1] == h[..n] + [h[n]];
    ProjectExtend(c, h[..n], h[n], p);
    RunStampOne(c, Run(c, Project(h[..n], p)), EnvOf(h[n].peers, h[n].relayEnabled, h[n].now, h[n].loFirst, p), ev);
  }

  /** While a relay probe is active, the ready message of its server node has the server push to the client what it
      announced, with the two keys the table holds; or, if the table lacks one of the two peers, the end to both. */
  lemma RelayReadyCall(c: Config, h: seq<Input>, n: nat, p: Pair, msg: AgentMessage)
    requires n < |h| && p.Proper() && msg.RelayReadyMsg?
    requires var neg := Run(c, Project(h[..n], p)).neg;
             && neg.Some? && neg.value.RelayProbe?
             && h[n].call == Message(if neg.value.server.Lo? then p.lo else p.hi, msg)
             && msg.other == (if neg.value.server.Lo? then p.hi else p.lo)
    ensures var i, x := h[n], Run(c, Project(h[..n], p)).neg.value.server;
            PushedBy(c, h, n, p)
            == if p.lo in i.peers && p.hi in i.peers then
                 var client, server := i.peers[msg.other].info.pubkey, i.peers[i.call.from].info.pubkey;
                 [Sent(x.Other(), ProbeRelayCheck(msg.meshIpv4, msg.tcpPort, msg.nonce, client, server), true)]
               else [Sent(Lo, NegotiateAbort(TimedOut), true), Sent(Hi, NegotiateAbort(TimedOut), true)]
  {
    hide Run, RunFrom, Project, Step, Less, Added, PushedBy;
    var s := Run(c, Project(h[..n], p));
    PairOfEnds(p);
    SoundRun(c, Project(h[..n], p));
    var ev := RelayReady(s.neg.value.server, msg.meshIpv4, msg.tcpPort, msg.nonce);
    OneStep(c, h, n, p, ev);
    RelayReadyIsAnswered(c, s, Timed(EnvOf(h[n].peers, h[n].relayEnabled, h[n].now, h[n].loFirst, p), ev));
  }

  /** While a direct probe is active, a ready message that finds the other side ready has the server tell either end the
      address the table holds for the other, with the port and nonce the other announced; or, if the table lacks one of
      the two peers, the end. */
  lemma DirectReadyCall(c: Config, h: seq<Input>, n: nat, p: Pair, from: PeerId, r: Ready)
    requires n < |h| && p.Proper() && p.Has(from)
    requires h[n].call == Message(from, DirectReadyMsg(if from == p.lo then p.hi else p.lo, r))
    requires var neg := Run(c, Project(h[..n], p)).neg;
             neg.Some? && neg.value.DirectProbe? && (if from == p.lo then neg.value.readyB else neg.value.readyA).Some?
    ensures var i, neg := h[n], Run(c, Project(h[..n], p)).neg.value;
            var lo := if from == p.lo then r else neg.readyA.value;
            var hi := if from == p.lo then neg.readyB.value else r;
            PushedBy(c, h, n, p)
            == if p.lo in i.peers && p.hi in i.peers then
                 [Sent(Lo, ProbeDirectGo(i.peers[p.hi].info.publicIp, hi.udpPort, hi.nonce), true),
                  Sent(Hi, ProbeDirectGo(i.peers[p.lo].info.publicIp, lo.udpPort, lo.nonce), true)]
               else [Sent(Lo, NegotiateAbort(TimedOut), true), Sent(Hi, NegotiateAbort(TimedOut), true)]
  {
    hide Run, RunFrom, Project, Step, Less, Added, PushedBy;
    var s := Run(c, Project(h[..n], p));
    PairOfEnds(p);
    SoundRun(c, Project(h[..n], p));
    var ev := DirectReady(if from == p.lo then Lo else Hi, r);
    OneStep(c, h, n, p, ev);
    AnswersReady(c, s, Timed(EnvOf(h[n].peers, h[n].relayEnabled, h[n].now, h[n].loFirst, p), ev));
  }
}
