/** The agent's message handlers: packages/agent/src/negotiate.ts over the monitor. Probe sockets are objects
    that handlers, the datagram callback and running go loops share. `Slice(p)` reads off what the agent holds
    about the remote peer p, and every handler is proved to move it as AgentMachine does and no other peer's. */
module AgentHandlers {
  import opened Common
  import opened PairKeys
  import opened PairMachine
  import opened AgentMachine
  import opened Tracking
  import opened Monitoring
  import Negotiator

  /** An entry of udpProbeSockets; `expected` is what the data callback now compares with. */
  class ProbeEntry {
    ghost const owner: PeerId
    const id: nat
    const port: nat
    const nonce: string
    var expected: Option<string>
    var resolved: bool
    var open: bool

    constructor (ghost owner: PeerId, id: nat, port: nat, nonce: string)
      ensures this.owner == owner && this.id == id && Value() == Entry(port, nonce, None, false, true)
    {
      this.owner, this.id, this.port, this.nonce := owner, id, port, nonce;
      expected, resolved, open := None, false, true;
    }

    ghost function Value(): Entry
      reads this
    {
      Entry(port, nonce, expected, resolved, open)
    }
  }

  /** A probe datagram put on the wire, and the peer whose go had it sent. */
  datatype Packet = Packet(peer: PeerId, ip: string, port: nat, nonce: string)

  /** An answer about `other` as it is sent to the server. */
  function ToServer(other: PeerId, ev: Event): seq<Negotiator.AgentMessage> {
    match ev
    case RelayReady(_, ip, port, nonce) => [Negotiator.RelayReadyMsg(other, ip, port, nonce)]
    case RelayResult(_, ok) => [Negotiator.RelayResultMsg(other, ok)]
    case DirectReady(_, r) => [Negotiator.DirectReadyMsg(other, r)]
    case DirectResult(_, ok) => [Negotiator.DirectResultMsg(other, ok)]
    case ProbeError(_) => [Negotiator.ProbeErrorMsg(other)]
    case _ => []
  }

  function Sends(other: PeerId, evs: seq<Event>): seq<Negotiator.AgentMessage> {
    if evs == [] then [] else ToServer(other, evs[0]) + Sends(other, evs[1..])
  }

  /** What an agent answers is, for the server, the event of its end of the pair and of no other pair. */
  lemma AnswersReachTheirPair(peers: map<PeerId, Negotiator.PeerRow>, self: PeerId, other: PeerId, a: Agent, body: Body,
                              w: World, p: Pair)
    requires self != other
    ensures var x := Negotiator.SideOf(PairOf(self, other), self);
            var out := Sends(other, Reply(a, x, body, w));
            && |out| == |Reply(a, x, body, w)| <= 1
            && (out != [] ==>
                Negotiator.EventsOfMessage(peers, self, out[0], p)
                == if PairOf(self, other) == p then Reply(a, x, body, w) else [])
  {
    hide PairOf, Less;
  }

  /** The single TCP probe slot after a message: serving takes it over, the end of a session frees it only if
      it was for that peer. */
  function TcpAfter(tcp: Option<PeerId>, peer: PeerId, body: Body, w: World): Option<PeerId> {
    if body.ProbeRelayServe? then (if w.bindOk then Some(peer) else tcp)
    else if (body.ProbeVerdict? || body.NegotiateAbort? || body.ForceMode?) && tcp == Some(peer) then None
    else tcp
  }

  /** The datagrams a go puts on the wire (the source repeats each three times). */
  function Packets(peer: PeerId, a: Agent, body: Body): seq<Packet> {
    if body.ProbeDirectGo? && a.slot.Some? && a.slot.value in a.entries
    then [Packet(peer, body.peerIpv4, body.peerUdpPort, a.entries[a.slot.value].nonce)] else []
  }

  datatype Desk = Desk(forced: Option<Forced>, slot: Option<nat>, entries: map<nat, Entry>, loops: multiset<nat>)

  function Seen(v: View, d: Desk): Agent {
    Agent(v.state.Some?, if v.state.Some? then v.state.value.mode else DirectPath, v.frozenAt, d.forced, d.slot,
          d.entries, d.loops)
  }

  class Negotiate {
    const monitor: Monitor
    /** The peer whose TCP probe server is running. */
    var tcpProbeServer: Option<PeerId>
    var udpProbeSockets: map<PeerId, ProbeEntry>
    var forcedModes: map<PeerId, Forced>
    /** Every probe socket made so far, and the go loops still running on each. */
    var sockets: map<nat, ProbeEntry>
    var loops: map<PeerId, multiset<nat>>
    ghost var sent: seq<Negotiator.AgentMessage>
    ghost var wire: seq<Packet>

    constructor (monitor: Monitor)
      requires monitor.Valid()
      ensures Valid() && this.monitor == monitor && tcpProbeServer == None && sent == [] && wire == []
      ensures forall p :: !Slice(p).known || Slice(p).slot.None?
    {
      this.monitor := monitor;
      tcpProbeServer, udpProbeSockets, forcedModes, sockets, loops := None, map[], map[], map[], map[];
      sent, wire := [], [];
    }

    /** The probe sockets made for peer p. */
    ghost function EntriesOf(p: PeerId): map<nat, Entry>
      reads this`sockets, sockets.Values
    {
      map id | id in sockets && sockets[id].owner == p :: sockets[id].Value()
    }

    /** The probing side of what the agent holds about peer p. */
    ghost function DeskOf(p: PeerId): Desk
      reads this`forcedModes, this`udpProbeSockets, this`loops, this`sockets, sockets.Values
    {
      Desk(if p in forcedModes then Some(forcedModes[p]) else None,
           SlotOf(p), EntriesOf(p), if p in loops then loops[p] else multiset{})
    }

    /** What the agent holds about peer p. */
    ghost function Slice(p: PeerId): Agent
      reads this`forcedModes, this`udpProbeSockets, this`loops, this`sockets, sockets.Values
      reads monitor`peerStates, monitor`frozenAt, monitor`relayForwardedPeers, monitor.peerStates.Values
    {
      Seen(monitor.ViewOf(p), DeskOf(p))
    }

    ghost predicate Inv()
      reads this`sockets, this`udpProbeSockets
    {
      && (forall id :: id in sockets ==> sockets[id].id == id)
      && (forall p :: p in udpProbeSockets ==>
            udpProbeSockets[p].owner == p && udpProbeSockets[p].id in sockets
                && sockets[udpProbeSockets[p].id] == udpProbeSockets[p])
    }

    ghost predicate Valid()
      reads this`sockets, this`udpProbeSockets, monitor, monitor.peerStates.Values
    {
      Inv() && monitor.Valid()
    }

    /** Writing to one probe socket changes the entries of its owner alone. */
    twostate lemma OnlyEntryChanged(id: nat)
      requires old(Inv()) && unchanged(`sockets) && id in sockets
      requires forall i :: i in sockets && i != id ==> unchanged(sockets[i])
      ensures forall q {:trigger EntriesOf(q)} ::
                EntriesOf(q) == if q == sockets[id].owner
                    then old(EntriesOf(q))[id := sockets[id].Value()] else old(EntriesOf(q))
    {
      forall q ensures EntriesOf(q) == if q == sockets[id].owner
          then old(EntriesOf(q))[id := sockets[id].Value()] else old(EntriesOf(q)) {
        forall i | i in sockets && i != id ensures sockets[i].Value() == old(sockets[i].Value()) {}
      }
    }

    ghost predicate Belongs(p: PeerId, id: nat)
      reads this`sockets
    {
      id in sockets && sockets[id].owner == p
    }

    lemma InEntries(p: PeerId, id: nat)
      requires Belongs(p, id)
      ensures id in EntriesOf(p) && EntriesOf(p)[id] == sockets[id].Value()
    {
    }

    // ----- one thing at a time -----

    /** switchPeerMode. */
    method SwitchPeerMode(p: PeerId, target: Path)
      requires Valid()
      modifies monitor`history, monitor.peerStates.Values
      ensures Valid() && monitor.peerStates == old(monitor.peerStates)
      ensures forall q {:trigger Slice(q)} ::
              Slice(q) == if q == p then SwitchMode(old(Slice(q)), target) else old(Slice(q))
    {
      monitor.SetPeerMode(p, target);
      forall q ensures DeskOf(q) == old(DeskOf(q)) {}
    }

    method FreezePeer(p: PeerId, now: nat)
      requires Valid()
      modifies monitor`history, monitor`frozenPeers, monitor`frozenAt
      ensures Valid()
      ensures forall q {:trigger Slice(q)} ::
              Slice(q) == if q == p then AgentMachine.Freeze(old(Slice(q)), now) else old(Slice(q))
    {
      monitor.Freeze(p, now);
      forall q ensures DeskOf(q) == old(DeskOf(q)) {}
    }

    method UnfreezePeer(p: PeerId)
      requires Valid()
      modifies monitor`history, monitor`frozenPeers, monitor`frozenAt
      ensures Valid()
      ensures forall q {:trigger Slice(q)} ::
              Slice(q) == if q == p then AgentMachine.Unfreeze(old(Slice(q))) else old(Slice(q))
    {
      monitor.Unfreeze(p);
      forall q ensures DeskOf(q) == old(DeskOf(q)) {}
    }

    method CloseTcpProbeServer(p: PeerId)
      modifies this`tcpProbeServer
      ensures tcpProbeServer == if old(tcpProbeServer) == Some(p) then None else old(tcpProbeServer)
    {
      if tcpProbeServer == Some(p) { tcpProbeServer := None; }
    }

    method CloseUdpProbeSocket(p: PeerId)
      requires Valid()
      modifies this`udpProbeSockets, sockets.Values
      ensures Valid()
      ensures forall q {:trigger Slice(q)} :: Slice(q) == if q == p then CloseSocket(old(Slice(q))) else old(Slice(q))
    {
      hide EntriesOf;
      if p in udpProbeSockets {
        ghost var id := udpProbeSockets[p].id;
        InEntries(p, id);
        udpProbeSockets[p].open := false;
        OnlyEntryChanged(id);
        udpProbeSockets := udpProbeSockets - {p};
      }
    }

    method AddSocket(p: PeerId, w: World) returns (entry: ProbeEntry)
      requires Inv() && w.id !in sockets
      modifies this`sockets
      ensures fresh(entry) && entry.owner == p && entry.id == w.id && sockets == old(sockets)[w.id := entry]
      ensures Inv()
      ensures forall q {:trigger EntriesOf(q)} ::
                EntriesOf(q) == if q == p
                    then old(EntriesOf(q))[w.id := Entry(w.port, w.nonce, None, false, true)] else old(EntriesOf(q))
    {
      entry := new ProbeEntry(p, w.id, w.port, w.nonce);
      sockets := sockets[w.id := entry];
    }

    /** A fresh probe socket takes the peer's slot. */
    method PutSocket(p: PeerId, w: World)
      requires Valid() && w.id !in sockets
      modifies this`udpProbeSockets, this`sockets
      ensures Valid() && fresh(sockets.Values - old(sockets.Values))
      ensures forall q {:trigger Slice(q)} ::
                Slice(q) == if q != p then old(Slice(q))
                            else old(Slice(q)).(slot := Some(w.id),
                                                entries := old(Slice(q)).entries[w.id := Entry(w.port, w.nonce, None,
                                                                                               false, true)])
    {
      hide EntriesOf;
      var entry := AddSocket(p, w);
      udpProbeSockets := udpProbeSockets[p := entry];
    }

    method SetForcedMode(p: PeerId, mode: Option<Forced>)
      requires Valid()
      modifies this`forcedModes
      ensures Valid()
      ensures forall q {:trigger Slice(q)} ::
              Slice(q) == if q == p then old(Slice(q)).(forced := mode) else old(Slice(q))
    {
      forcedModes := if mode.Some? then forcedModes[p := mode.value] else forcedModes - {p};
    }

    // ----- handlers -----

    method HandleProbeRelayServe(p: PeerId, w: World)
      requires Valid()
      modifies this`tcpProbeServer, this`sent, monitor`history, monitor`frozenPeers, monitor`frozenAt
      ensures Valid() && tcpProbeServer == TcpAfter(old(tcpProbeServer), p, ProbeRelayServe, w)
      ensures sent == old(sent) + Sends(p, Reply(old(Slice(p)), Lo, ProbeRelayServe, w))
      ensures forall q {:trigger Slice(q)} ::
              Slice(q) == if q == p then OnMessage(old(Slice(q)), ProbeRelayServe, w) else old(Slice(q))
    {
      hide Slice, DeskOf;
      FreezePeer(p, w.now);
      if w.bindOk {
        tcpProbeServer := Some(p);
        sent := sent + [Negotiator.RelayReadyMsg(p, w.meshIpv4, w.port, w.nonce)];
      } else {
        sent := sent + [Negotiator.ProbeErrorMsg(p)];
        UnfreezePeer(p);
      }
    }

    /** The TCP probe itself, up to three seconds long, is the answer `probeOk`. */
    method HandleProbeRelayCheck(p: PeerId, body: Body, w: World)
      requires Valid() && body.ProbeRelayCheck?
      modifies this`sent, monitor`history, monitor`frozenPeers, monitor`frozenAt
      ensures Valid()
      ensures sent == old(sent) + Sends(p, Reply(old(Slice(p)), Lo, body, w))
      ensures forall q {:trigger Slice(q)} ::
              Slice(q) == if q == p then OnMessage(old(Slice(q)), body, w) else old(Slice(q))
    {
      hide Slice, DeskOf;
      FreezePeer(p, w.now);
      sent := sent + [Negotiator.RelayResultMsg(p, w.probeOk)];
    }

    method HandleProbeDirectStart(p: PeerId, w: World)
      requires Valid() && w.id !in sockets
      modifies this`udpProbeSockets, this`sockets, this`sent, monitor`history, monitor`frozenPeers, monitor`frozenAt
      ensures Valid() && fresh(sockets.Values - old(sockets.Values))
      ensures sent == old(sent) + Sends(p, Reply(old(Slice(p)), Lo, ProbeDirectStart, w))
      ensures forall q {:trigger Slice(q)} ::
              Slice(q) == if q == p then OnMessage(old(Slice(q)), ProbeDirectStart, w) else old(Slice(q))
    {
      hide Slice, DeskOf;
      FreezePeer(p, w.now);
      if w.bindOk {
        PutSocket(p, w);
        sent := sent + [Negotiator.DirectReadyMsg(p, Ready(w.port, w.nonce))];
      } else {
        sent := sent + [Negotiator.ProbeErrorMsg(p)];
        UnfreezePeer(p);
      }
    }

    /** Up to the first wait: the callback now expects the peer's nonce, our own goes out, a loop runs. */
    method HandleProbeDirectGo(p: PeerId, body: Body)
      requires Valid() && body.ProbeDirectGo?
      modifies this`loops, this`wire, sockets.Values
      ensures Valid()
      ensures wire == old(wire) + Packets(p, old(Slice(p)), body)
      ensures forall q {:trigger Slice(q)} ::
              Slice(q) == if q == p then OnGo(old(Slice(q)), body.peerNonce) else old(Slice(q))
    {
      hide Slice, DeskOf;
      HasSlot(p);
      if p !in udpProbeSockets { return; }
      var entry := udpProbeSockets[p];
      Expect(p, body.peerNonce);
      wire := wire + [Packet(p, body.peerIpv4, body.peerUdpPort, entry.nonce)];
      AddLoop(p, entry.id);
    }

    lemma HasSlot(p: PeerId)
      requires Inv()
      ensures Slice(p).slot == if p in udpProbeSockets then Some(udpProbeSockets[p].id) else None
      ensures p in udpProbeSockets ==>
                var e := udpProbeSockets[p]; e.id in Slice(p).entries && Slice(p).entries[e.id] == e.Value()
    {
      hide EntriesOf;
      if p in udpProbeSockets { InEntries(p, udpProbeSockets[p].id); }
    }

    method Expect(p: PeerId, nonce: string)
      requires Valid() && p in udpProbeSockets && udpProbeSockets[p].id in Slice(p).entries
      modifies sockets.Values
      ensures Valid()
      ensures forall q {:trigger Slice(q)} ::
                var a, id := old(Slice(q)), udpProbeSockets[p].id;
                Slice(q) == if q == p && id in a.entries
                    then a.(entries := a.entries[id := a.entries[id].(expected := Some(nonce))]) else a
    {
      hide EntriesOf;
      var entry := udpProbeSockets[p];
      InEntries(p, entry.id);
      entry.expected := Some(nonce);
      OnlyEntryChanged(entry.id);
    }

    method AddLoop(p: PeerId, id: nat)
      requires Valid()
      modifies this`loops
      ensures Valid()
      ensures forall q {:trigger Slice(q)} ::
                Slice(q) == if q == p then old(Slice(q)).(loops := old(Slice(q)).loops + multiset{id})
                    else old(Slice(q))
    {
      hide EntriesOf;
      loops := loops[p := (if p in loops then loops[p] else multiset{}) + multiset{id}];
    }

    method CleanUpProbe(p: PeerId)
      requires Valid()
      modifies this`tcpProbeServer, this`udpProbeSockets, sockets.Values, monitor`history, monitor`frozenPeers,
               monitor`frozenAt
      ensures Valid() && tcpProbeServer == if old(tcpProbeServer) == Some(p) then None else old(tcpProbeServer)
      ensures forall q {:trigger Slice(q)} :: Slice(q) == if q == p then CleanUp(old(Slice(q))) else old(Slice(q))
    {
      hide Slice, DeskOf;
      CloseTcpProbeServer(p);
      CloseUdpProbeSocket(p);
      UnfreezePeer(p);
    }

    method HandleProbeVerdict(p: PeerId, action: Action)
      requires Valid()
      modifies this`tcpProbeServer, this`udpProbeSockets, sockets.Values
      modifies monitor`history, monitor`frozenPeers, monitor`frozenAt, monitor.peerStates.Values
      ensures Valid() && tcpProbeServer == if old(tcpProbeServer) == Some(p) then None else old(tcpProbeServer)
      ensures forall q {:trigger Slice(q)} ::
              Slice(q) == if q == p then OnVerdict(old(Slice(q)), action) else old(Slice(q))
    {
      hide Slice, DeskOf;
      CleanUpProbe(p);
      match action
      case SwitchRelay => SwitchPeerMode(p, RelayPath);
      case SwitchDirect => SwitchPeerMode(p, DirectPath);
      case Stay =>
    }

    method HandleForceMode(p: PeerId, mode: Option<Forced>)
      requires Valid()
      modifies this`tcpProbeServer, this`udpProbeSockets, this`forcedModes, sockets.Values
      modifies monitor`history, monitor`frozenPeers, monitor`frozenAt, monitor.peerStates.Values
      ensures Valid() && tcpProbeServer == if old(tcpProbeServer) == Some(p) then None else old(tcpProbeServer)
      ensures forall q {:trigger Slice(q)} :: Slice(q) == if q == p then OnForce(old(Slice(q)), mode) else old(Slice(q))
    {
      hide Slice, DeskOf;
      CleanUpProbe(p);
      SetForcedMode(p, mode);
      if mode.Some? {
        SwitchPeerMode(p, if mode.value.ForceRelay? then RelayPath else DirectPath);
      }
    }

    /** handleNegotiateMessage: whatever the message, only the peer it names is affected, as AgentMachine says,
        except for the one TCP slot that all peers share. */
    method HandleMessage(p: PeerId, body: Body, w: World)
      requires Valid() && w.id !in sockets
      modifies this`tcpProbeServer, this`udpProbeSockets, this`forcedModes, this`sockets, this`loops, this`sent,
               this`wire
      modifies sockets.Values, monitor`history, monitor`frozenPeers, monitor`frozenAt, monitor.peerStates.Values
      ensures Valid() && fresh(sockets.Values - old(sockets.Values))
      ensures tcpProbeServer == TcpAfter(old(tcpProbeServer), p, body, w)
      ensures sent == old(sent) + Sends(p, Reply(old(Slice(p)), Lo, body, w))
      ensures wire == old(wire) + Packets(p, old(Slice(p)), body)
      ensures forall q {:trigger Slice(q)} ::
              Slice(q) == if q == p then OnMessage(old(Slice(q)), body, w) else old(Slice(q))
    {
      hide Slice, DeskOf, OnVerdict, OnForce, OnGo;
      match body
      case ProbeRelayServe => HandleProbeRelayServe(p, w);
      case ProbeRelayCheck(_, _, _, _, _) => HandleProbeRelayCheck(p, body, w);
      case ProbeDirectStart => HandleProbeDirectStart(p, w);
      case ProbeDirectGo(_, _, _) => HandleProbeDirectGo(p, body);
      case ProbeVerdict(action) => HandleProbeVerdict(p, action);
      case NegotiateAbort(_) => CleanUpProbe(p);
      case ForceMode(mode) => HandleForceMode(p, mode);
    }

    /** The socket's data callback. A closed socket receives nothing. */
    method OnData(p: PeerId, id: nat, payload: string)
      requires Valid() && id in sockets && sockets[id].owner == p && sockets[id].open
      modifies sockets[id]
      ensures Valid()
      ensures forall q {:trigger Slice(q)} ::
              Slice(q) == if q == p then OnDatagram(old(Slice(q)), id, payload) else old(Slice(q))
    {
      hide EntriesOf;
      InEntries(p, id);
      var entry := sockets[id];
      if entry.expected == Some(payload) {
        entry.resolved := true;
        OnlyEntryChanged(id);
      }
    }

    /** A go loop has seen its entry resolved, or three seconds pass: it closes whatever socket holds the peer's
        slot and reports. */
    method LoopEnds(p: PeerId, id: nat, success: bool)
      requires Valid() && p in loops && id in loops[p] && id in sockets && (success ==> sockets[id].resolved)
      modifies this`udpProbeSockets, this`loops, this`sent, sockets.Values
      ensures Valid() && sent == old(sent) + Sends(p, [DirectResult(Lo, success)])
      ensures forall q {:trigger Slice(q)} :: Slice(q) == if q == p then OnLoopEnd(old(Slice(q)), id) else old(Slice(q))
    {
      hide Slice, DeskOf;
      CloseUdpProbeSocket(p);
      DropLoop(p, id);
      sent := sent + [Negotiator.DirectResultMsg(p, success)];
    }

    method DropLoop(p: PeerId, id: nat)
      requires Valid() && p in loops
      modifies this`loops
      ensures Valid()
      ensures forall q {:trigger Slice(q)} ::
                Slice(q) == if q == p then old(Slice(q)).(loops := old(Slice(q)).loops - multiset{id})
                    else old(Slice(q))
    {
      hide EntriesOf;
      loops := loops[p := loops[p] - multiset{id}];
    }

    /** resetNegotiateState, when the WebSocket has closed. */
    method Reset()
      requires Valid()
      modifies this`tcpProbeServer, this`udpProbeSockets, this`forcedModes, sockets.Values
      modifies monitor`history, monitor`frozenPeers, monitor`frozenAt
      ensures Valid() && tcpProbeServer == None
      ensures forall q {:trigger Slice(q)} :: Slice(q) == OnDisconnect(old(Slice(q)))
    {
      hide Slice, DeskOf;
      tcpProbeServer := None;
      CloseSlots();
      ClearFrozen();
      ClearForced();
    }

    method ClearFrozen()
      requires Valid()
      modifies monitor`history, monitor`frozenPeers, monitor`frozenAt
      ensures Valid()
      ensures forall q {:trigger Slice(q)} :: Slice(q) == AgentMachine.Unfreeze(old(Slice(q)))
    {
      monitor.ClearAllFrozen();
      forall q ensures DeskOf(q) == old(DeskOf(q)) {}
    }

    method ClearForced()
      requires Valid()
      modifies this`forcedModes
      ensures Valid()
      ensures forall q {:trigger Slice(q)} :: Slice(q) == old(Slice(q)).(forced := None)
    {
      hide EntriesOf;
      forcedModes := map[];
    }

    method CloseSlots()
      requires Valid()
      modifies this`udpProbeSockets, sockets.Values
      ensures Valid()
      ensures forall q {:trigger Slice(q)} :: Slice(q) == CloseSocket(old(Slice(q)))
    {
      hide EntriesOf;
      CloseAll();
    }

    /** Every socket in a slot is closed, and the slots are emptied. */
    method CloseAll()
      requires Inv()
      modifies this`udpProbeSockets, sockets.Values
      ensures Inv() && udpProbeSockets == map[]
      ensures forall q {:trigger EntriesOf(q)} :: EntriesOf(q) == Shut(old(SlotOf(q)), old(EntriesOf(q)))
    {
      hide EntriesOf;
      var todo := udpProbeSockets.Keys;
      while todo != {}
        invariant todo <= udpProbeSockets.Keys
        invariant Inv() && udpProbeSockets == old(udpProbeSockets)
        invariant forall q {:trigger EntriesOf(q)} ::
                    EntriesOf(q) == if q in todo then old(EntriesOf(q)) else Shut(old(SlotOf(q)), old(EntriesOf(q)))
        decreases todo
      {
        var p :| p in todo;
        var entry := udpProbeSockets[p];
        InEntries(p, entry.id);
        label before:
        entry.open := false;
        OnlyEntryChanged@before(entry.id);
        todo := todo - {p};
      }
      udpProbeSockets := map[];
    }

    ghost function SlotOf(p: PeerId): Option<nat>
      reads this`udpProbeSockets
    {
      if p in udpProbeSockets then Some(udpProbeSockets[p].id) else None
    }
  }

  function Shut(slot: Option<nat>, entries: map<nat, Entry>): map<nat, Entry> {
    if slot.Some? && slot.value in entries then entries[slot.value := entries[slot.value].(open := false)] else entries
  }
}
