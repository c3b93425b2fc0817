/** The rx-alive monitor of packages/agent/src/monitor.ts. */
module Monitoring {
  import opened Common
  import opened PairKeys
  import opened PairMachine
  import opened Tracking
  import Negotiator

  class PeerState {
    var mode: Path
    var rxAlive: bool
    var lastRxBytes: int
    var directMissed: nat

    constructor ()
      ensures Value() == FRESH
    {
      mode, rxAlive, lastRxBytes, directMissed := DirectPath, true, -1, 0;
    }

    ghost function Value(): Tracked
      reads this
    {
      Tracked(mode, rxAlive, lastRxBytes, directMissed)
    }

    /** setPeerMode on a known peer. */
    method Switch(to: Path)
      modifies this
      ensures Value() == Switched(to)
    {
      mode, lastRxBytes, directMissed, rxAlive := to, -1, 0, to.DirectPath?;
    }

    /** The body of tick's second loop. */
    method Sample(rx: nat, tainted: bool)
      modifies this
      ensures Value() == if old(mode).DirectPath? then Sampled(old(Value()), rx, tainted) else old(Value())
    {
      if mode.DirectPath? {
        if !tainted && lastRxBytes >= 0 && rx > lastRxBytes {
          directMissed := 0;
          rxAlive := true;
        } else if lastRxBytes >= 0 {
          directMissed := directMissed + 1;
          if directMissed >= MISS_THRESHOLD {
            rxAlive := false;
          }
        }
        lastRxBytes := rx;
      }
    }
  }

  /** What is asked of the monitor. `rx` is what the kernel counts for each peer at a tick. */
  datatype Call =
    | InitPeer(id: PeerId)
    | RemovePeer(id: PeerId)
    | FreezePeer(id: PeerId, now: nat)
    | UnfreezePeer(id: PeerId)
    | UnfreezeAll
    | SwitchPeer(id: PeerId, mode: Path)
    | RelayFrameFor(id: PeerId)
    | TickAll(now: nat, rx: map<PeerId, nat>)

  /** What a call is for one peer; a peer the kernel does not show has received 0 bytes. */
  function SightingOf(call: Call, p: PeerId): Option<Sighting> {
    match call
    case InitPeer(id) => if id == p then Some(Init) else None
    case RemovePeer(id) => if id == p then Some(Remove) else None
    case FreezePeer(id, now) => if id == p then Some(Freeze(now)) else None
    case UnfreezePeer(id) => if id == p then Some(Unfreeze) else None
    case UnfreezeAll => Some(Unfreeze)
    case SwitchPeer(id, mode) => if id == p then Some(SetMode(mode)) else None
    case RelayFrameFor(id) => if id == p then Some(RelayFrame) else None
    case TickAll(now, rx) => Some(Tick(now, if p in rx then rx[p] else 0))
  }

  /** The history of one peer inside that of the monitor. */
  function SightingsOf(calls: seq<Call>, p: PeerId): seq<Sighting> {
    if calls == [] then []
    else
      var last := SightingOf(calls[|calls| - 1], p);
      SightingsOf(calls[..|calls| - 1], p) + if last.Some? then [last.value] else []
  }

  function Moved(v: View, call: Call, p: PeerId): View {
    var ev := SightingOf(call, p);
    if ev.Some? then Observe(v, ev.value) else v
  }

  lemma ObservedNext(calls: seq<Call>, call: Call, p: PeerId)
    ensures Observed(SightingsOf(calls + [call], p)) == Moved(Observed(SightingsOf(calls, p)), call, p)
  {
    assert (calls + [call])[..|calls + [call]| - 1] == calls;
    var before := SightingsOf(calls, p);
    var ev := SightingOf(call, p);
    if ev.Some? {
      assert (before + [ev.value])[..|before + [ev.value]| - 1] == before;
    } else {
      assert before + [] == before;
    }
  }

  function Reported(reports: seq<Negotiator.HealthReport>): set<PeerId> {
    set i | 0 <= i < |reports| :: reports[i].peerId
  }

  lemma ReportedNext(reports: seq<Negotiator.HealthReport>, r: Negotiator.HealthReport)
    ensures Reported(reports + [r]) == Reported(reports) + {r.peerId}
    ensures forall i :: 0 <= i < |reports| ==> reports[i].peerId in Reported(reports)
  {
    var more := reports + [r];
    assert more[|reports|] == r;
    forall i | 0 <= i < |reports| ensures reports[i].peerId in Reported(more) {
      assert more[i] == reports[i];
    }
  }

  class Monitor {
    var peerStates: map<PeerId, PeerState>
    var frozenPeers: set<PeerId>
    var frozenAt: map<PeerId, nat>
    /** relay-proxy.ts: peers that had a relay frame forwarded since the last drain. */
    var relayForwardedPeers: set<PeerId>
    /** Everything asked of the monitor so far. */
    ghost var history: seq<Call>

    constructor ()
      ensures Valid() && peerStates == map[] && history == []
    {
      peerStates, frozenPeers, frozenAt, relayForwardedPeers, history := map[], {}, map[], {}, [];
    }

    /** The two records of who is frozen agree, and no two peers share a state. */
    ghost predicate Inv()
      reads this`peerStates, this`frozenPeers, this`frozenAt
    {
      && frozenPeers == frozenAt.Keys
      && (forall a, b :: a in peerStates && b in peerStates && a != b ==> peerStates[a] != peerStates[b])
    }

    /** Every peer stands where its own history puts it. */
    ghost predicate Valid()
      reads this, peerStates.Values
    {
      && Inv()
      && (forall p: PeerId {:trigger ViewOf(p)} :: ViewOf(p) == Observed(SightingsOf(history, p)))
    }

    ghost function ViewOf(id: PeerId): View
      reads this`peerStates, this`frozenAt, this`relayForwardedPeers, peerStates.Values
    {
      View(if id in peerStates then Some(peerStates[id].Value()) else None,
           if id in frozenAt then Some(frozenAt[id]) else None, id in relayForwardedPeers)
    }

    /** Every peer sees the call, and nothing else has happened. */
    twostate predicate Sees(call: Call)
      reads this, peerStates.Values
    {
      && Inv()
      && history == old(history) + [call]
      && (forall p: PeerId {:trigger ViewOf(p)} :: ViewOf(p) == Moved(old(ViewOf(p)), call, p))
    }

    twostate lemma StaysValid(call: Call)
      requires old(Valid()) && Sees(call)
      ensures Valid()
    {
      hide Observed, SightingsOf, Moved;
      forall p: PeerId
        ensures ViewOf(p) == Observed(SightingsOf(history, p))
      {
        ObservedNext(old(history), call, p);
        assert old(ViewOf(p)) == Observed(SightingsOf(old(history), p));
      }
    }

    method InitPeerState(id: PeerId)
      requires Valid()
      modifies this`peerStates, this`history
      ensures Valid() && Sees(InitPeer(id)) && fresh(peerStates.Values - old(peerStates.Values))
      ensures peerStates.Keys == old(peerStates.Keys) + {id}
    {
      if id !in peerStates {
        var s := new PeerState();
        peerStates := peerStates[id := s];
      }
      history := history + [InitPeer(id)];
      StaysValid(InitPeer(id));
    }

    method RemovePeerState(id: PeerId)
      requires Valid()
      modifies this`peerStates, this`frozenPeers, this`frozenAt, this`history
      ensures Valid() && Sees(RemovePeer(id)) && peerStates.Values <= old(peerStates.Values)
      ensures peerStates.Keys == old(peerStates.Keys) - {id}
    {
      peerStates, frozenPeers, frozenAt := peerStates - {id}, frozenPeers - {id}, frozenAt - {id};
      history := history + [RemovePeer(id)];
      StaysValid(RemovePeer(id));
    }

    method Freeze(id: PeerId, now: nat)
      requires Valid()
      modifies this`frozenPeers, this`frozenAt, this`history
      ensures Valid() && Sees(FreezePeer(id, now))
    {
      frozenPeers, frozenAt := frozenPeers + {id}, frozenAt[id := now];
      history := history + [FreezePeer(id, now)];
      StaysValid(FreezePeer(id, now));
    }

    method Unfreeze(id: PeerId)
      requires Valid()
      modifies this`frozenPeers, this`frozenAt, this`history
      ensures Valid() && Sees(UnfreezePeer(id))
    {
      frozenPeers, frozenAt := frozenPeers - {id}, frozenAt - {id};
      history := history + [UnfreezePeer(id)];
      StaysValid(UnfreezePeer(id));
    }

    method ClearAllFrozen()
      requires Valid()
      modifies this`frozenPeers, this`frozenAt, this`history
      ensures Valid() && Sees(UnfreezeAll)
    {
      frozenPeers, frozenAt := {}, map[];
      history := history + [UnfreezeAll];
      StaysValid(UnfreezeAll);
    }

    method SetPeerMode(id: PeerId, mode: Path)
      requires Valid()
      modifies peerStates.Values, this`history
      ensures Valid() && Sees(SwitchPeer(id, mode))
    {
      if id in peerStates { peerStates[id].Switch(mode); }
      history := history + [SwitchPeer(id, mode)];
      StaysValid(SwitchPeer(id, mode));
    }

    /** A relay frame for a peer with a proxy was forwarded to its tunnel. */
    method OnRelayForwarded(id: PeerId)
      requires Valid()
      modifies this`relayForwardedPeers, this`history
      ensures Valid() && Sees(RelayFrameFor(id))
    {
      relayForwardedPeers := relayForwardedPeers + {id};
      history := history + [RelayFrameFor(id)];
      StaysValid(RelayFrameFor(id));
    }

    method DrainRelayForwarded() returns (snapshot: set<PeerId>)
      modifies this`relayForwardedPeers
      ensures snapshot == old(relayForwardedPeers) && relayForwardedPeers == {}
    {
      snapshot, relayForwardedPeers := relayForwardedPeers, {};
    }

    /** The first loop of tick: peers frozen for too long are let go. */
    method Thaw(now: nat)
      requires Inv()
      modifies this`frozenPeers, this`frozenAt
      ensures Inv()
      ensures frozenAt == map id | id in old(frozenAt) && now - old(frozenAt)[id] <= 30_000 :: old(frozenAt)[id]
    {
      var todo := frozenAt.Keys;
      while todo != {}
        invariant Inv() && todo <= frozenAt.Keys
        invariant frozenAt == map id | id in old(frozenAt)
                  && (id in todo || now - old(frozenAt)[id] <= FROZEN_TIMEOUT) :: old(frozenAt)[id]
        decreases todo
      {
        var id :| id in todo;
        if now - frozenAt[id] > FROZEN_TIMEOUT {
          frozenPeers, frozenAt := frozenPeers - {id}, frozenAt - {id};
        }
        todo := todo - {id};
      }
    }

    method SampleAll(rx: map<PeerId, nat>, tainted: set<PeerId>)
      requires Inv()
      modifies peerStates.Values
      ensures forall id :: id in peerStates ==>
                var before := old(peerStates[id].Value());
                peerStates[id].Value() == if id in frozenPeers || before.mode.RelayPath? then before
                                          else Sampled(before, if id in rx then rx[id] else 0, id in tainted)
    {
      var todo := peerStates.Keys;
      while todo != {}
        invariant todo <= peerStates.Keys
        invariant forall id :: id in peerStates ==>
                    var before := old(peerStates[id].Value());
                    peerStates[id].Value() == if id in todo || id in frozenPeers || before.mode.RelayPath? then before
                                              else Sampled(before, if id in rx then rx[id] else 0, id in tainted)
        decreases todo
      {
        var id :| id in todo;
        if id !in frozenPeers {
          peerStates[id].Sample(if id in rx then rx[id] else 0, id in tainted);
        }
        todo := todo - {id};
      }
    }

    /** Every second: let stuck peers go, then sample every peer that is not frozen. */
    method OnTick(now: nat, rx: map<PeerId, nat>)
      requires Valid()
      modifies this`frozenPeers, this`frozenAt, this`relayForwardedPeers, this`history, peerStates.Values
      ensures Valid() && Sees(TickAll(now, rx))
      ensures forall id :: id in frozenAt ==> now - frozenAt[id] <= 30_000
    {
      hide Sampled, Observed, SightingsOf;
      Thaw(now);
      var relayForwarded := DrainRelayForwarded();
      SampleAll(rx, relayForwarded);
      history := history + [TickAll(now, rx)];
      StaysValid(TickAll(now, rx));
    }

    /** One report for each known peer that is not frozen, and for no other. */
    method CollectHealthReports() returns (reports: seq<Negotiator.HealthReport>)
      requires Valid()
      ensures Reported(reports) == peerStates.Keys - frozenPeers
      ensures forall i, j :: 0 <= i < j < |reports| ==> reports[i].peerId != reports[j].peerId
      ensures forall i :: 0 <= i < |reports| ==>
                var r := reports[i];
                r.peerId in peerStates && r.mode == peerStates[r.peerId].mode
                    && r.rxAlive == peerStates[r.peerId].rxAlive
    {
      reports := [];
      var todo := peerStates.Keys;
      while todo != {}
        invariant todo <= peerStates.Keys
        invariant Reported(reports) == peerStates.Keys - todo - frozenPeers
        invariant forall i, j :: 0 <= i < j < |reports| ==> reports[i].peerId != reports[j].peerId
        invariant forall i :: 0 <= i < |reports| ==>
                    var r := reports[i];
                    r.peerId in peerStates && r.mode == peerStates[r.peerId].mode
                        && r.rxAlive == peerStates[r.peerId].rxAlive
        decreases todo
      {
        var id :| id in todo;
        if id !in frozenPeers {
          ReportedNext(reports, Negotiator.HealthReport(id, peerStates[id].mode, peerStates[id].rxAlive));
          reports := reports + [Negotiator.HealthReport(id, peerStates[id].mode, peerStates[id].rxAlive)];
        }
        todo := todo - {id};
      }
    }
  }

  /** The whole monitor, after any history: a known peer on the direct path is reported alive exactly while
      fewer than three trailing ticks were counted without untainted growth, and directMissed is their number. */
  lemma EveryPeerTracksItsRun(m: Monitor, id: PeerId)
    requires m.Valid() && id in m.peerStates && m.peerStates[id].mode.DirectPath?
    ensures var o := Growth(SightingsOf(m.history, id));
            TrailingMisses(o, m.peerStates[id].directMissed)
            && (m.peerStates[id].rxAlive <==> m.peerStates[id].directMissed < 3)
  {
    hide Observed, SightingsOf, Growth, TrailingMisses;
    CountersAreTrailingRuns(SightingsOf(m.history, id));
    assert m.ViewOf(id) == Observed(SightingsOf(m.history, id));
  }

  // ----- known, mode and freeze, told from the calls -----

  /** The peer has been added, and not removed since. */
  predicate KnownIn(calls: seq<Call>, id: PeerId) {
    calls != [] &&
    var call := calls[|calls| - 1];
    if call == InitPeer(id) then true
    else if call == RemovePeer(id) then false
    else KnownIn(calls[..|calls| - 1], id)
  }

  /** The mode last set for the peer since it was added: direct at first. */
  function ModeIn(calls: seq<Call>, id: PeerId): Path {
    if calls == [] then DirectPath
    else
      var call, before := calls[|calls| - 1], calls[..|calls| - 1];
      if !KnownIn(before, id) then DirectPath
      else if call.SwitchPeer? && call.id == id then call.mode
      else ModeIn(before, id)
  }

  /** When the peer was last frozen, unless it was let go since: by its own call, with all, with its removal, or by a
      tick more than 30 s later. */
  function FrozenIn(calls: seq<Call>, id: PeerId): Option<nat> {
    if calls == [] then None
    else
      var call, before := calls[|calls| - 1], FrozenIn(calls[..|calls| - 1], id);
      match call
      case FreezePeer(x, now) => if x == id then Some(now) else before
      case UnfreezePeer(x) => if x == id then None else before
      case RemovePeer(x) => if x == id then None else before
      case UnfreezeAll => None
      case TickAll(now, _) => if before.Some? && now - before.value > 30_000 then None else before
      case _ => before
  }

  lemma {:induction false} CallsTell(calls: seq<Call>, id: PeerId)
    ensures var v := Observed(SightingsOf(calls, id));
            && (v.state.Some? <==> KnownIn(calls, id)) && (v.state.Some? ==> v.state.value.mode == ModeIn(calls, id))
            && v.frozenAt == FrozenIn(calls, id)
  {
    hide Observed, SightingsOf, Moved;
    if calls != [] {
      var before, call := calls[..|calls| - 1], calls[|calls| - 1];
      CallsTell(before, id);
      ObservedNext(before, call, id);
      assert before + [call] == calls;
      CallTells(Observed(SightingsOf(before, id)), call, id);
    } else {
      NothingObserved(id);
    }
  }

  lemma NothingObserved(id: PeerId)
    ensures Observed(SightingsOf([], id)) == UNSEEN
  {
  }

  /** What one call does to a peer's state, mode and freeze. */
  lemma CallTells(v: View, call: Call, id: PeerId)
    ensures var v' := Moved(v, call, id);
            && (v'.state.Some? <==> call == InitPeer(id) || (call != RemovePeer(id) && v.state.Some?))
            && (v'.state.Some? ==>
                  v'.state.value.mode == if v.state.None? then DirectPath
                                         else if call.SwitchPeer? && call.id == id then call.mode
                                         else v.state.value.mode)
            && v'.frozenAt == match call
                              case FreezePeer(x, now) => if x == id then Some(now) else v.frozenAt
                              case UnfreezePeer(x) => if x == id then None else v.frozenAt
                              case RemovePeer(x) => if x == id then None else v.frozenAt
                              case UnfreezeAll => None
                              case TickAll(now, _) =>
                                if v.frozenAt.Some? && now - v.frozenAt.value > 30_000 then None else v.frozenAt
                              case _ => v.frozenAt
  {
    hide Sampled;
    SamplingKeepsMode();
  }

  lemma SamplingKeepsMode()
    ensures forall s, rx, tainted :: Sampled(s, rx, tainted).mode == s.mode
  {
  }

  /** The whole monitor, after any history: who is known, in which mode, and who is frozen since when. */
  lemma MonitorTellsHistory(m: Monitor, id: PeerId)
    requires m.Valid()
    ensures id in m.peerStates <==> KnownIn(m.history, id)
    ensures id in m.peerStates ==> m.peerStates[id].mode == ModeIn(m.history, id)
    ensures (id in m.frozenPeers <==> FrozenIn(m.history, id).Some?) && (id in m.frozenAt <==> id in m.frozenPeers)
    ensures id in m.frozenAt ==> Some(m.frozenAt[id]) == FrozenIn(m.history, id)
  {
    hide Observed, SightingsOf, KnownIn, ModeIn, FrozenIn;
    CallsTell(m.history, id);
    assert m.ViewOf(id) == Observed(SightingsOf(m.history, id));
  }
}
