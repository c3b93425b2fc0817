/** One agent's dealings with one remote peer (packages/agent/src/negotiate.ts), on values. */
module AgentMachine {
  import opened Common
  import opened PairMachine

  /** A UDP probe socket. Loops of probe-direct-go hold on to it even after its slot is taken by another. */
  datatype Entry = Entry(port: nat, nonce: string, expected: Option<string>, resolved: bool, open: bool)

  /** What the agent holds about the remote peer: its monitor record (if the peer is known) and freeze, the
      forced mode, its UDP slot, and the go loops still running, each on the entry it took. */
  datatype Agent = Agent(known: bool, mode: Path, frozenAt: Option<nat>, forced: Option<Forced>,
                         slot: Option<nat>, entries: map<nat, Entry>, loops: multiset<nat>)

  const IDLE := Agent(true, DirectPath, None, None, None, map[], multiset{})

  /** What the handler meets outside: the clock, whether a bind succeeds, a fresh socket and nonce, the answer
      of the TCP probe, its own address. */
  datatype World = World(now: nat, bindOk: bool, id: nat, port: nat, nonce: string, probeOk: bool, meshIpv4: string)

  function Freeze(a: Agent, now: nat): Agent { a.(frozenAt := Some(now)) }

  function Unfreeze(a: Agent): Agent { a.(frozenAt := None) }

  function CloseSocket(a: Agent): Agent {
    if a.slot.None? then a
    else
      var id := a.slot.value;
      a.(slot := None, entries := if id in a.entries then a.entries[id := a.entries[id].(open := false)] else a.entries)
  }

  /** A mode switch is dropped for a peer the agent does not know. */
  function SwitchMode(a: Agent, target: Path): Agent {
    if a.known then a.(mode := target) else a
  }

  function OnStart(a: Agent, w: World): Agent {
    if w.bindOk then Freeze(a, w.now).(slot := Some(w.id),
                                       entries := a.entries[w.id := Entry(w.port, w.nonce, None, false, true)])
    else Unfreeze(a)
  }

  /** probe-direct-go: expect the peer's nonce on the current socket and start a loop on it. */
  function OnGo(a: Agent, peerNonce: string): Agent {
    if a.slot.None? || a.slot.value !in a.entries then a
    else
      var id := a.slot.value;
      a.(entries := a.entries[id := a.entries[id].(expected := Some(peerNonce))], loops := a.loops + multiset{id})
  }

  function CleanUp(a: Agent): Agent { Unfreeze(CloseSocket(a)) }

  function OnVerdict(a: Agent, action: Action): Agent {
    match action
    case SwitchRelay => SwitchMode(CleanUp(a), RelayPath)
    case SwitchDirect => SwitchMode(CleanUp(a), DirectPath)
    case Stay => CleanUp(a)
  }

  function OnForce(a: Agent, mode: Option<Forced>): Agent {
    match mode
    case None => CleanUp(a).(forced := None)
    case Some(ForceRelay) => SwitchMode(CleanUp(a).(forced := mode), RelayPath)
    case Some(ForceDirect) => SwitchMode(CleanUp(a).(forced := mode), DirectPath)
  }

  /** The agent after a message from the server. */
  function OnMessage(a: Agent, body: Body, w: World): Agent {
    match body
    case ProbeRelayServe => if w.bindOk then Freeze(a, w.now) else Unfreeze(a)
    case ProbeRelayCheck(_, _, _, _, _) => Freeze(a, w.now)
    case ProbeDirectStart => OnStart(a, w)
    case ProbeDirectGo(_, _, nonce) => OnGo(a, nonce)
    case ProbeVerdict(action) => OnVerdict(a, action)
    case NegotiateAbort(_) => CleanUp(a)
    case ForceMode(mode) => OnForce(a, mode)
  }

  /** What it answers at once; x is its own end of the pair. */
  function Reply(a: Agent, x: Side, body: Body, w: World): seq<Event> {
    match body
    case ProbeRelayServe => if w.bindOk then [RelayReady(x, w.meshIpv4, w.port, w.nonce)] else [ProbeError(x)]
    case ProbeRelayCheck(_, _, _, _, _) => [RelayResult(x, w.probeOk)]
    case ProbeDirectStart => if w.bindOk then [DirectReady(x, Ready(w.port, w.nonce))] else [ProbeError(x)]
    case _ => []
  }

  /** A datagram on socket id: the callback compares it with the nonce the last go asked for. */
  function OnDatagram(a: Agent, id: nat, payload: string): Agent {
    if id in a.entries && a.entries[id].open && a.entries[id].expected == Some(payload)
    then a.(entries := a.entries[id := a.entries[id].(resolved := true)])
    else a
  }

  /** A go loop ends: it closes whatever socket holds the slot now. */
  function OnLoopEnd(a: Agent, id: nat): Agent {
    CloseSocket(a).(loops := a.loops - multiset{id})
  }

  /** The WebSocket closed: probe sockets, freezes and forced modes are cleared, the mode stays. */
  function OnDisconnect(a: Agent): Agent {
    a.(slot := None, frozenAt := None, forced := None,
       entries := if a.slot.Some? && a.slot.value in a.entries
                  then a.entries[a.slot.value := a.entries[a.slot.value].(open := false)] else a.entries)
  }
}
