/** What an agent holds about a peer, told from what has happened to it. */
module AgentHistory {
  import opened Common
  import opened PairMachine
  import opened AgentMachine
  import opened PairKeys
  import AgentHandlers

  datatype Happening =
    | Hears(body: Body, w: World)
    | Arrives(id: nat, payload: string)
    | Ends(id: nat)
    | Drops
    | Thaws

  function Happens(a: Agent, h: Happening): Agent {
    match h
    case Hears(body, w) => OnMessage(a, body, w)
    case Arrives(id, payload) => OnDatagram(a, id, payload)
    case Ends(id) => OnLoopEnd(a, id)
    case Drops => OnDisconnect(a)
    case Thaws => Unfreeze(a)
  }

  /** The agent of a known peer, idle at first, after all that. */
  function Lived(tr: seq<Happening>): Agent {
    if tr == [] then IDLE else Happens(Lived(tr[..|tr| - 1]), tr[|tr| - 1])
  }

  /** The path that the last message to switch or force it named; direct at first. */
  function LastPath(tr: seq<Happening>): Path {
    if tr == [] then DirectPath
    else
      var h, before := tr[|tr| - 1], LastPath(tr[..|tr| - 1]);
      if !h.Hears? then before
      else match h.body
        case ForceMode(Some(ForceRelay)) => RelayPath
        case ForceMode(Some(ForceDirect)) => DirectPath
        case ProbeVerdict(SwitchRelay) => RelayPath
        case ProbeVerdict(SwitchDirect) => DirectPath
        case _ => before
  }

  /** What the last command said, unless the socket has closed since. */
  function LastCommand(tr: seq<Happening>): Option<Forced> {
    if tr == [] then None
    else
      var h := tr[|tr| - 1];
      if h.Drops? then None
      else if h.Hears? && h.body.ForceMode? then h.body.mode
      else LastCommand(tr[..|tr| - 1])
  }

  /** The message asks for a probe, and the socket for it could be bound, if it takes one. */
  predicate Probes(h: Happening) {
    h.Hears? && (h.body.ProbeRelayCheck? || ((h.body.ProbeRelayServe? || h.body.ProbeDirectStart?) && h.w.bindOk))
  }

  /** What lets a frozen peer go: the end of a session, a probe that could not be set up, the tick, the socket. */
  predicate LetsGo(h: Happening) {
    || h.Drops? || h.Thaws?
    || (h.Hears? && (h.body.ProbeVerdict? || h.body.NegotiateAbort? || h.body.ForceMode?))
    || (h.Hears? && (h.body.ProbeRelayServe? || h.body.ProbeDirectStart?) && !h.w.bindOk)
  }

  /** When the peer was frozen, if it still is: at the last probe message, if nothing has let it go since. */
  function FrozenSince(tr: seq<Happening>): Option<nat> {
    if tr == [] then None
    else
      var h := tr[|tr| - 1];
      if Probes(h) then Some(h.w.now) else if LetsGo(h) then None else FrozenSince(tr[..|tr| - 1])
  }

  /** The probe socket in the peer's slot: the last one made, if no session, loop or connection has ended since. */
  function SlotNow(tr: seq<Happening>): Option<nat> {
    if tr == [] then None
    else
      var h := tr[|tr| - 1];
      if h.Hears? && h.body.ProbeDirectStart? && h.w.bindOk then Some(h.w.id)
      else if h.Drops? || h.Ends? || (h.Hears? && (h.body.ProbeVerdict? || h.body.NegotiateAbort? || h.body.ForceMode?))
      then None
      else SlotNow(tr[..|tr| - 1])
  }

  /** Sockets get new handles. */
  predicate NewHandles(tr: seq<Happening>) {
    tr == [] ||
    (NewHandles(tr[..|tr| - 1])
     && (tr[|tr| - 1].Hears? ==> tr[|tr| - 1].w.id !in Lived(tr[..|tr| - 1]).entries))
  }

  /** What the agent holds about a peer is what has happened: its path, the command it remembers, its freeze, its slot;
      and the socket in the slot is open. */
  lemma {:induction false} AgentTellsHistory(tr: seq<Happening>)
    requires NewHandles(tr)
    ensures var a := Lived(tr);
            && a.known && a.mode == LastPath(tr) && a.forced == LastCommand(tr) && a.frozenAt == FrozenSince(tr)
            && a.slot == SlotNow(tr)
            && (a.slot.Some? ==> a.slot.value in a.entries && a.entries[a.slot.value].open)
  {
    if tr != [] {
      AgentTellsHistory(tr[..|tr| - 1]);
      var a, h := Lived(tr[..|tr| - 1]), tr[|tr| - 1];
      if h.Hears? {
        FieldsAfter(a, h.body, h.w);
        SlotAfter(a, h.body, h.w);
      } else {
        OthersAfter(a, h);
      }
      hide Happens;
    }
  }

  lemma OthersAfter(a: Agent, h: Happening)
    requires !h.Hears? && (a.slot.Some? ==> a.slot.value in a.entries && a.entries[a.slot.value].open)
    ensures var a' := Happens(a, h);
            && a'.known == a.known && a'.mode == a.mode
            && a'.forced == (if h.Drops? then None else a.forced)
            && a'.frozenAt == (if h.Drops? || h.Thaws? then None else a.frozenAt)
            && a'.slot == (if h.Drops? || h.Ends? then None else a.slot)
            && (a'.slot.Some? ==> a'.slot.value in a'.entries && a'.entries[a'.slot.value].open)
  {
  }

  lemma FieldsAfter(a: Agent, b: Body, w: World)
    requires a.known
    ensures var a' := OnMessage(a, b, w);
            && a'.known
            && a'.mode == (match b
                           case ForceMode(Some(ForceRelay)) => RelayPath
                           case ForceMode(Some(ForceDirect)) => DirectPath
                           case ProbeVerdict(SwitchRelay) => RelayPath
                           case ProbeVerdict(SwitchDirect) => DirectPath
                           case _ => a.mode)
            && a'.forced == (if b.ForceMode? then b.mode else a.forced)
            && a'.frozenAt == (if Probes(Hears(b, w)) then Some(w.now)
                               else if LetsGo(Hears(b, w)) then None else a.frozenAt)
  {
  }

  lemma SlotAfter(a: Agent, b: Body, w: World)
    requires w.id !in a.entries && (a.slot.Some? ==> a.slot.value in a.entries && a.entries[a.slot.value].open)
    ensures var a' := OnMessage(a, b, w);
            && a'.slot == (if b.ProbeDirectStart? && w.bindOk then Some(w.id)
                           else if b.ProbeVerdict? || b.NegotiateAbort? || b.ForceMode? then None else a.slot)
            && (a'.slot.Some? ==> a'.slot.value in a'.entries && a'.entries[a'.slot.value].open)
  {
  }

  // ----- the TCP probe slot that all peers share -----

  datatype Message = Message(peer: PeerId, body: Body, w: World)

  /** The slot after these messages. */
  function TcpSlot(tr: seq<Message>): Option<PeerId> {
    if tr == [] then None
    else
      var m := tr[|tr| - 1];
      AgentHandlers.TcpAfter(TcpSlot(tr[..|tr| - 1]), m.peer, m.body, m.w)
  }

  /** A probe server was started for the peer. */
  predicate Serves(m: Message) { m.body.ProbeRelayServe? && m.w.bindOk }

  /** A session with the peer ended. */
  predicate EndsFor(m: Message, p: PeerId) {
    m.peer == p && (m.body.ProbeVerdict? || m.body.NegotiateAbort? || m.body.ForceMode?)
  }

  /** Message k started the server for p, and since then no other was started and no session with p has ended. */
  predicate ServedSince(tr: seq<Message>, p: PeerId, k: nat) {
    && k < |tr| && Serves(tr[k]) && tr[k].peer == p
    && forall j :: k < j < |tr| ==> !Serves(tr[j]) && !EndsFor(tr[j], p)
  }

  /** The slot is a peer's exactly while its server is the last one started and its session has not ended. */
  lemma {:induction false} TcpSlotTellsHistory(tr: seq<Message>, p: PeerId)
    ensures TcpSlot(tr) == Some(p) <==> exists k: nat :: ServedSince(tr, p, k)
  {
    if tr != [] {
      var l := |tr| - 1;
      TcpSlotTellsHistory(tr[..l], p);
      if k: nat :| ServedSince(tr[..l], p, k) {
        assert tr[..l][k] == tr[k];
        if !Serves(tr[l]) && !EndsFor(tr[l], p) { assert ServedSince(tr, p, k); }
      }
      if k: nat :| ServedSince(tr, p, k) {
        if k < l { assert ServedSince(tr[..l], p, k); }
      }
      if Serves(tr[l]) && tr[l].peer == p { assert ServedSince(tr, p, l); }
    }
  }
}
