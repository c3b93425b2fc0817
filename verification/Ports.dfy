/** When the listen ports of one host are distinct. The server's word on a port is taken without a look at the ports
    of other peers, so they are not always. */
module Ports {
  import opened Common
  import opened Decimals
  import opened PairKeys
  import opened Reconciler

  // ----- one turn -----

  /** No other peer of this host has the port that the server names. */
  predicate Free(peer: ConfigPeer, ports: map<PeerId, nat>) {
    peer.listenPort > 0 ==> forall q :: q in ports && q != peer.id ==> ports[q] != peer.listenPort
  }

  /** A turn keeps the ports distinct if and only if the port the server names, if any, is free. */
  lemma TurnKeepsApart(peer: ConfigPeer, ports: map<PeerId, nat>, port: nat, start: nat, end: nat)
    requires Injective(ports) && Chosen(peer, ports, port, start, end)
    ensures Injective(ports[peer.id := port]) <==> Free(peer, ports)
  {
    var ports' := ports[peer.id := port];
    forall q | q in ports ensures ports[q] in ports.Values {}
    if !Free(peer, ports) {
      var q :| q in ports && q != peer.id && ports[q] == peer.listenPort;
      assert ports'[q] == ports'[peer.id];
    }
  }

  // ----- the turns of a pass -----

  predicate AlwaysFree(config: seq<ConfigPeer>, given: seq<nat>, ports: map<PeerId, nat>)
    requires |given| == |config|
  {
    forall k :: 0 <= k < |config| && Keyed(config[k]) ==> Free(config[k], PortsAfter(config[..k], given[..k], ports))
  }

  ghost predicate AlwaysApart(config: seq<ConfigPeer>, given: seq<nat>, ports: map<PeerId, nat>)
    requires |given| == |config|
  {
    forall k :: 0 <= k <= |config| ==> Injective(PortsAfter(config[..k], given[..k], ports))
  }

  /** Over a pass: the ports are distinct after every turn if and only if every named port was free at its turn. */
  lemma {:induction false} ApartIffAlwaysFree(config: seq<ConfigPeer>, given: seq<nat>, ports: map<PeerId, nat>,
                                              start: nat, end: nat)
    requires Legal(config, given, ports, start, end) && Injective(ports)
    ensures AlwaysApart(config, given, ports) <==> AlwaysFree(config, given, ports)
  {
    hide Injective, Chosen, Free;
    if config == [] {
      assert config[..0] == [] && given[..0] == [];
    } else {
      var l := |config| - 1;
      LegalBefore(config, given, ports, start, end, l);
      ApartIffAlwaysFree(config[..l], given[..l], ports, start, end);
      var before := PortsAfter(config[..l], given[..l], ports);
      assert config[..l + 1] == config && given[..l + 1] == given;
      forall k | 0 <= k <= l ensures config[..l][..k] == config[..k] && given[..l][..k] == given[..k] {}
      assert AlwaysFree(config, given, ports) <==>
             AlwaysFree(config[..l], given[..l], ports) && (Keyed(config[l]) ==> Free(config[l], before)) by {
        FreeBefore(config, given, ports, l);
      }
      if Injective(before) && Keyed(config[l]) { TurnKeepsApart(config[l], before, given[l], start, end); }
      ApartBefore(config, given, ports, l);
    }
  }

  lemma FreeBefore(config: seq<ConfigPeer>, given: seq<nat>, ports: map<PeerId, nat>, l: nat)
    requires |given| == |config| == l + 1
    ensures AlwaysFree(config, given, ports) <==>
            && AlwaysFree(config[..l], given[..l], ports)
            && (Keyed(config[l]) ==> Free(config[l], PortsAfter(config[..l], given[..l], ports)))
  {
    hide Free;
    forall k | 0 <= k < l ensures config[..l][..k] == config[..k] && given[..l][..k] == given[..k] {}
    if AlwaysFree(config, given, ports) {
      forall k | 0 <= k < l && Keyed(config[..l][k])
        ensures Free(config[..l][k], PortsAfter(config[..l][..k], given[..l][..k], ports))
      {
        assert Keyed(config[k]);
      }
    }
    if AlwaysFree(config[..l], given[..l], ports) {
      forall k | 0 <= k < l && Keyed(config[k]) ensures Free(config[k], PortsAfter(config[..k], given[..k], ports)) {
        assert Keyed(config[..l][k]);
      }
    }
  }

  lemma ApartBefore(config: seq<ConfigPeer>, given: seq<nat>, ports: map<PeerId, nat>, l: nat)
    requires |given| == |config| == l + 1
    ensures AlwaysApart(config, given, ports) <==>
            AlwaysApart(config[..l], given[..l], ports) && Injective(PortsAfter(config, given, ports))
  {
    hide Injective, PortsAfter;
    forall k | 0 <= k <= l ensures config[..l][..k] == config[..k] && given[..l][..k] == given[..k] {}
    assert config[..l + 1] == config && given[..l + 1] == given;
    if AlwaysApart(config, given, ports) {
      forall k | 0 <= k <= l ensures Injective(PortsAfter(config[..l][..k], given[..l][..k], ports)) {
        assert Injective(PortsAfter(config[..k], given[..k], ports));
      }
    }
    if AlwaysApart(config[..l], given[..l], ports) && Injective(PortsAfter(config, given, ports)) {
      forall k | 0 <= k <= l + 1 ensures Injective(PortsAfter(config[..k], given[..k], ports)) {
        if k <= l { assert Injective(PortsAfter(config[..l][..k], given[..l][..k], ports)); }
      }
    }
  }

  lemma LegalBefore(config: seq<ConfigPeer>, given: seq<nat>, ports: map<PeerId, nat>, start: nat, end: nat, i: nat)
    requires Legal(config, given, ports, start, end) && i <= |config|
    ensures Legal(config[..i], given[..i], ports, start, end)
  {
    hide Chosen, PortsAfter;
    forall k | 0 <= k < i && Keyed(config[..i][k])
      ensures Chosen(config[..i][k], PortsAfter(config[..i][..k], given[..i][..k], ports), given[..i][k], start, end)
    {
      assert config[..i][..k] == config[..k] && given[..i][..k] == given[..k];
    }
  }

  // ----- a pass as a whole -----

  predicate Named(peer: ConfigPeer) { Keyed(peer) && peer.listenPort > 0 }

  /** The peer gets a port drawn from the range in this pass. */
  predicate Draws(peer: ConfigPeer, ports: map<PeerId, nat>) {
    Keyed(peer) && peer.listenPort == 0 && peer.id !in ports
  }

  /** The ports that are certain before the pass begins: those named, and those held and not renamed. */
  function Certain(config: seq<ConfigPeer>, ports: map<PeerId, nat>): map<PeerId, nat> {
    if config == [] then ports
    else
      var l := |config| - 1;
      var before := Certain(config[..l], ports);
      if Named(config[l]) then before[config[l].id := config[l].listenPort] else before
  }

  predicate NamedIn(config: seq<ConfigPeer>, p: PeerId) {
    exists j :: 0 <= j < |config| && Named(config[j]) && config[j].id == p
  }

  lemma {:induction false} CertainMeans(config: seq<ConfigPeer>, ports: map<PeerId, nat>)
    requires UniqueIds(config)
    ensures forall j :: 0 <= j < |config| && Named(config[j]) ==>
              config[j].id in Certain(config, ports) && Certain(config, ports)[config[j].id] == config[j].listenPort
    ensures forall p :: !NamedIn(config, p) ==>
              (p in Certain(config, ports) <==> p in ports)
              && (p in ports ==> Certain(config, ports)[p] == ports[p])
    ensures forall p :: p in Certain(config, ports) ==> p in ports || NamedIn(config, p)
    ensures ports.Keys <= Certain(config, ports).Keys
  {
    if config != [] {
      var l := |config| - 1;
      CertainMeans(config[..l], ports);
      forall p ensures NamedIn(config, p) <==> NamedIn(config[..l], p) || (Named(config[l]) && config[l].id == p) {
        if NamedIn(config[..l], p) {
          var j :| 0 <= j < l && Named(config[..l][j]) && config[..l][j].id == p;
          assert config[j] == config[..l][j];
        }
        if j :| 0 <= j < |config| && Named(config[j]) && config[j].id == p {
          if j < l { assert config[..l][j] == config[j]; }
        }
      }
      forall j | 0 <= j < |config| && Named(config[j])
        ensures config[j].id in Certain(config, ports) && Certain(config, ports)[config[j].id] == config[j].listenPort
      {
        if j < l { assert config[..l][j] == config[j]; }
      }
    }
  }

  predicate DrawnIn(config: seq<ConfigPeer>, ports: map<PeerId, nat>, p: PeerId) {
    exists i :: 0 <= i < |config| && Draws(config[i], ports) && config[i].id == p
  }

  /** After a pass the certain ports are as they were to be, and everyone else has the port drawn in its turn. */
  ghost predicate Shaped(config: seq<ConfigPeer>, given: seq<nat>, ports: map<PeerId, nat>, after: map<PeerId, nat>)
    requires |given| == |config|
  {
    var certain := Certain(config, ports);
    && (forall p :: p in certain ==> p in after && after[p] == certain[p])
    && (forall i :: 0 <= i < |config| && Draws(config[i], ports) ==>
          config[i].id in after && config[i].id !in certain && after[config[i].id] == given[i])
    && (forall p :: p in after ==> p in certain || DrawnIn(config, ports, p))
  }

  lemma {:induction false} Shape(config: seq<ConfigPeer>, given: seq<nat>, ports: map<PeerId, nat>, start: nat,
                                 end: nat)
    requires UniqueIds(config) && Legal(config, given, ports, start, end)
    ensures Shaped(config, given, ports, PortsAfter(config, given, ports))
  {
    if config != [] {
      var l := |config| - 1;
      LegalBefore(config, given, ports, start, end, l);
      Shape(config[..l], given[..l], ports, start, end);
      CertainMeans(config[..l], ports);
      ShapeNext(config[..l], given[..l], ports, PortsAfter(config[..l], given[..l], ports), config[l], given[l], start,
                end);
      assert config == config[..l] + [config[l]] && given == given[..l] + [given[l]];
    }
  }

  lemma NewHere(config: seq<ConfigPeer>, ports: map<PeerId, nat>, peer: ConfigPeer)
    requires UniqueIds(config + [peer])
    ensures UniqueIds(config) && !NamedIn(config, peer.id) && !DrawnIn(config, ports, peer.id)
  {
    var more := config + [peer];
    assert more[|config|] == peer;
    forall k | 0 <= k < |config| ensures more[k] == config[k] && config[k].id != peer.id {
      assert more[k].id != more[|config|].id;
    }
  }

  lemma CertainNext(config: seq<ConfigPeer>, peer: ConfigPeer, ports: map<PeerId, nat>)
    ensures Certain(config + [peer], ports)
            == if Named(peer) then Certain(config, ports)[peer.id := peer.listenPort] else Certain(config, ports)
    ensures forall p :: DrawnIn(config + [peer], ports, p) <==>
                        DrawnIn(config, ports, p) || (Draws(peer, ports) && peer.id == p)
  {
    var c := config + [peer];
    assert c[..|config|] == config && c[|config|] == peer;
    forall p ensures DrawnIn(c, ports, p) <==> DrawnIn(config, ports, p) || (Draws(peer, ports) && peer.id == p) {
      if i :| 0 <= i < |config| && Draws(config[i], ports) && config[i].id == p { assert c[i] == config[i]; }
    }
  }

  lemma ShapeNext(config: seq<ConfigPeer>, given: seq<nat>, ports: map<PeerId, nat>, after: map<PeerId, nat>,
                  peer: ConfigPeer, port: nat, start: nat, end: nat)
    requires UniqueIds(config + [peer]) && |given| == |config| && Shaped(config, given, ports, after)
    requires Keyed(peer) ==> Chosen(peer, after, port, start, end)
    ensures Shaped(config + [peer], given + [port], ports, if Keyed(peer) then after[peer.id := port] else after)
  {
    hide Certain, DrawnIn, NamedIn, Chosen, UniqueIds, Named;
    NewHere(config, ports, peer);
    PeerIsNew(config, ports, after, peer);
    CertainNext(config, peer, ports);
    var after' := if Keyed(peer) then after[peer.id := port] else after;
    CertainKept(Certain(config, ports), ports, after, peer, port, start, end);
    DrawsNext(config, given, ports, after, peer, port, after');
  }

  lemma PeerIsNew(config: seq<ConfigPeer>, ports: map<PeerId, nat>, after: map<PeerId, nat>, peer: ConfigPeer)
    requires UniqueIds(config) && !NamedIn(config, peer.id) && !DrawnIn(config, ports, peer.id)
    requires forall p :: p in after ==> p in Certain(config, ports) || DrawnIn(config, ports, p)
    ensures ports.Keys <= Certain(config, ports).Keys && (peer.id in Certain(config, ports) <==> peer.id in ports)
    ensures peer.id in after ==> peer.id in Certain(config, ports)
  {
    hide DrawnIn, UniqueIds, Named;
    CertainMeans(config, ports);
  }

  lemma CertainKept(certain: map<PeerId, nat>, ports: map<PeerId, nat>, after: map<PeerId, nat>, peer: ConfigPeer,
                    port: nat, start: nat, end: nat)
    requires forall p :: p in certain ==> p in after && after[p] == certain[p]
    requires ports.Keys <= certain.Keys && (peer.id in certain <==> peer.id in ports)
    requires Keyed(peer) ==> Chosen(peer, after, port, start, end)
    requires peer.id in after ==> peer.id in certain
    ensures var certain' := if Named(peer) then certain[peer.id := peer.listenPort] else certain;
            var after' := if Keyed(peer) then after[peer.id := port] else after;
            && (forall p :: p in certain' ==> p in after' && after'[p] == certain'[p])
            && (forall p :: p in after' ==> p in certain' || p in after || (Draws(peer, ports) && p == peer.id))
  {
  }

  lemma DrawsNext(config: seq<ConfigPeer>, given: seq<nat>, ports: map<PeerId, nat>, after: map<PeerId, nat>,
                  peer: ConfigPeer, port: nat, after': map<PeerId, nat>)
    requires |given| == |config| && Shaped(config, given, ports, after)
    requires UniqueIds(config + [peer])
    requires after' == (if Keyed(peer) then after[peer.id := port] else after)
    requires Draws(peer, ports) ==> peer.id !in Certain(config, ports)
    ensures var c, g := config + [peer], given + [port];
            forall i :: 0 <= i < |c| && Draws(c[i], ports) ==>
              c[i].id in after' && c[i].id !in Certain(c, ports) && after'[c[i].id] == g[i]
  {
    var c, g := config + [peer], given + [port];
    CertainNext(config, peer, ports);
    assert c[|config|] == peer;
    hide Certain, DrawnIn;
    forall i | 0 <= i < |c| && Draws(c[i], ports)
      ensures c[i].id in after' && c[i].id !in Certain(c, ports) && after'[c[i].id] == g[i]
    {
      if i < |config| { assert c[i] == config[i] && g[i] == given[i] && c[i].id != c[|config|].id; }
    }
  }

  /** A port drawn in the pass is named later in it for another peer. */
  predicate DrawnThenNamed(config: seq<ConfigPeer>, given: seq<nat>, ports: map<PeerId, nat>)
    requires |given| == |config|
  {
    exists i, j :: 0 <= i < j < |config| && Draws(config[i], ports) && Named(config[j])
                   && given[i] == config[j].listenPort
  }

  /** What is drawn is in the range and not in use at that turn: neither held, nor named or drawn before. */
  lemma DrawnIsFresh(config: seq<ConfigPeer>, given: seq<nat>, ports: map<PeerId, nat>, start: nat, end: nat, i: nat)
    requires UniqueIds(config) && Legal(config, given, ports, start, end) && i < |config| && Draws(config[i], ports)
    ensures start <= given[i] <= end
    ensures forall p :: p in Certain(config[..i], ports) ==> Certain(config[..i], ports)[p] != given[i]
    ensures forall k :: 0 <= k < i && Draws(config[k], ports) ==> given[k] != given[i]
  {
    LegalBefore(config, given, ports, start, end, i);
    Shape(config[..i], given[..i], ports, start, end);
    var before := PortsAfter(config[..i], given[..i], ports);
    assert config[..i] + [config[i]] == config[..i + 1];
    NewHere(config[..i], ports, config[i]);
    CertainMeans(config[..i], ports);
    assert config[i].id !in before;
    forall p | p in before ensures before[p] in before.Values {}
    forall k | 0 <= k < i && Draws(config[k], ports) ensures given[k] != given[i] {
      assert config[..i][k] == config[k] && given[..i][k] == given[k];
    }
  }

  lemma NamedSooner(config: seq<ConfigPeer>, i: nat, q: PeerId)
    requires i <= |config|
    ensures NamedIn(config[..i], q) ==> NamedIn(config, q)
  {
    if j :| 0 <= j < i && Named(config[..i][j]) && config[..i][j].id == q { assert config[j].id == q; }
  }

  /** What is certain of a peer was so before turn i, or is named from then on. */
  lemma CertainSince(config: seq<ConfigPeer>, ports: map<PeerId, nat>, i: nat, q: PeerId)
    requires UniqueIds(config) && i <= |config| && q in Certain(config, ports)
    ensures (q in Certain(config[..i], ports) && Certain(config[..i], ports)[q] == Certain(config, ports)[q])
            || exists j :: i <= j < |config| && Named(config[j]) && config[j].listenPort == Certain(config, ports)[q]
  {
    CertainMeans(config, ports);
    CertainMeans(config[..i], ports);
    hide Certain, UniqueIds;
    if j :| 0 <= j < |config| && Named(config[j]) && config[j].id == q {
      if j < i { assert config[..i][j] == config[j]; }
    } else {
      NamedSooner(config, i, q);
    }
  }

  /** A drawn port meets a certain one only if that was named later. */
  lemma DrawnMeetsCertain(config: seq<ConfigPeer>, given: seq<nat>, ports: map<PeerId, nat>, start: nat, end: nat,
                          i: nat, q: PeerId)
    requires UniqueIds(config) && Legal(config, given, ports, start, end) && i < |config| && Draws(config[i], ports)
    requires q in Certain(config, ports) && Certain(config, ports)[q] == given[i]
    ensures DrawnThenNamed(config, given, ports)
  {
    DrawnIsFresh(config, given, ports, start, end, i);
    CertainSince(config, ports, i, q);
    var j :| i <= j < |config| && Named(config[j]) && config[j].listenPort == given[i];
    assert i < j;
  }

  /** The listen ports that a pass leaves are distinct if and only if those certain beforehand are, and no port drawn
      in the pass is named later in it. */
  lemma ApartIffNothingClashes(config: seq<ConfigPeer>, given: seq<nat>, ports: map<PeerId, nat>, start: nat, end: nat)
    requires UniqueIds(config) && Legal(config, given, ports, start, end)
    ensures var desired := Desired(config);
            Injective(Restrict(PortsAfter(config, given, ports), desired)) <==>
            Injective(Restrict(Certain(config, ports), desired)) && !DrawnThenNamed(config, given, ports)
  {
    hide PortsAfter, Certain, UniqueIds, Chosen;
    Shape(config, given, ports, start, end);
    var desired, after, certain := Desired(config), PortsAfter(config, given, ports), Certain(config, ports);
    var left := Restrict(after, desired);
    if DrawnThenNamed(config, given, ports) {
      ClashShows(config, given, ports, start, end);
    } else if Injective(left) {
      forall p, q | p in Restrict(certain, desired) && q in Restrict(certain, desired) && certain[p] == certain[q]
        ensures p == q
      {
        assert p in left && q in left && left[p] == left[q];
      }
    } else if Injective(Restrict(certain, desired)) {
      var p, q :| p in left && q in left && left[p] == left[q] && p != q;
      TwoMeet(config, given, ports, start, end, p, q);
    }
  }

  lemma ClashShows(config: seq<ConfigPeer>, given: seq<nat>, ports: map<PeerId, nat>, start: nat, end: nat)
    requires UniqueIds(config) && Legal(config, given, ports, start, end) && DrawnThenNamed(config, given, ports)
    ensures !Injective(Restrict(PortsAfter(config, given, ports), Desired(config)))
  {
    Shape(config, given, ports, start, end);
    CertainMeans(config, ports);
    var left := Restrict(PortsAfter(config, given, ports), Desired(config));
    var i, j :| 0 <= i < j < |config| && Draws(config[i], ports) && Named(config[j])
                && given[i] == config[j].listenPort;
    assert config[i].id in Desired(config) && config[j].id in Desired(config);
    assert left[config[i].id] == left[config[j].id] && config[i].id != config[j].id;
  }

  lemma CertainMeet(certain: map<PeerId, nat>, keep: set<PeerId>, p: PeerId, q: PeerId)
    requires p in certain && q in certain && p in keep && q in keep && p != q && certain[p] == certain[q]
    ensures !Injective(Restrict(certain, keep))
  {
    var rest := Restrict(certain, keep);
    assert p in rest && q in rest && rest[p] == rest[q];
  }

  lemma TwoMeet(config: seq<ConfigPeer>, given: seq<nat>, ports: map<PeerId, nat>, start: nat, end: nat, p: PeerId,
                q: PeerId)
    requires UniqueIds(config) && Legal(config, given, ports, start, end)
    requires var after := PortsAfter(config, given, ports); p in after && q in after && after[p] == after[q] && p != q
    requires p in Desired(config) && q in Desired(config)
    requires Injective(Restrict(Certain(config, ports), Desired(config)))
    ensures DrawnThenNamed(config, given, ports)
  {
    hide PortsAfter, Certain, UniqueIds, DrawnThenNamed, Chosen;
    Shape(config, given, ports, start, end);
    var certain := Certain(config, ports);
    if p in certain && q in certain {
      CertainMeet(certain, Desired(config), p, q);
    } else if p in certain {
      var i :| 0 <= i < |config| && Draws(config[i], ports) && config[i].id == q;
      DrawnMeetsCertain(config, given, ports, start, end, i, p);
    } else {
      var i :| 0 <= i < |config| && Draws(config[i], ports) && config[i].id == p;
      if q in certain {
        DrawnMeetsCertain(config, given, ports, start, end, i, q);
      } else {
        var k :| 0 <= k < |config| && Draws(config[k], ports) && config[k].id == q;
        DrawnIsFresh(config, given, ports, start, end, if i < k then k else i);
      }
    }
  }

  /** The same of a host: what a pass leaves in its table of ports. */
  method ReconcilePorts(m: Mappings, config: seq<ConfigPeer>, setups: seq<Setup>)
    returns (ok: bool, reported: seq<(PeerId, nat)>, ghost given: seq<nat>)
    requires m.Valid() && (!m.dirty ==> m.InStep()) && |setups| == |config| && UniqueIds(config)
    modifies m`peerToIf, m`peerToPort, m`dirty, m`peak, m`interfaces, m`file
    ensures m.Valid()
    ensures ok ==> |given| == |config|
    ensures ok ==> (Injective(m.peerToPort) <==>
                      && Injective(Restrict(Certain(config, old(m.peerToPort)), Desired(config)))
                      && !DrawnThenNamed(config, given, old(m.peerToPort)))
    ensures ok ==> forall p, n :: (p, n) in reported <==>
                                  SetUp(config, setups, p) && p in m.peerToPort && m.peerToPort[p] == n
  {
    hide WellNamed, LoadedIfs, LoadedPorts, KeyedIds, Assigned, UniqueIds, ServerAgrees, Injective, Built, Gone,
         PortsAfter, Reported, GapsFilled, InOrder, Certain, DrawnThenNamed, SetUp, Chosen;
    ok, reported, given := m.Reconcile(config, setups);
    if ok {
      ApartIffNothingClashes(config, given, old(m.peerToPort), m.portRangeStart, m.portRangeEnd);
      ReportIsHeld(config, setups, given, old(m.peerToPort));
      SetUpIsDesired(config, setups);
    }
  }

  lemma SetUpIsDesired(config: seq<ConfigPeer>, setups: seq<Setup>)
    requires |setups| == |config|
    ensures forall p :: SetUp(config, setups, p) ==> p in Desired(config)
  {
  }

  /** The ports of a pass, peer by peer: the server's word, else what was held, else a number of the range. */
  lemma PortsRead(config: seq<ConfigPeer>, given: seq<nat>, ports: map<PeerId, nat>, start: nat, end: nat, i: nat)
    requires UniqueIds(config) && Legal(config, given, ports, start, end) && i < |config| && config[i].pubkey != ""
    ensures var after, id := PortsAfter(config, given, ports), config[i].id;
            && id in after
            && (if config[i].listenPort > 0 then after[id] == config[i].listenPort
                else if id in ports then after[id] == ports[id]
                else start <= after[id] <= end)
  {
    Shape(config, given, ports, start, end);
    CertainMeans(config, ports);
    var id := config[i].id;
    if config[i].listenPort == 0 && id in ports {
      forall j | 0 <= j < |config| && config[j].id == id ensures j == i {}
      assert !NamedIn(config, id);
    } else if config[i].listenPort == 0 {
      DrawnIsFresh(config, given, ports, start, end, i);
    }
  }

  lemma InterfacesRead(config: seq<ConfigPeer>, setups: seq<Setup>, ifs0: map<PeerId, string>, ifs: map<PeerId, string>,
                       name: string)
    requires |setups| == |config|
    ensures name in Built(config, setups, ifs) <==>
            exists i :: 0 <= i < |config| && config[i].pubkey != "" && !setups[i].FailedBefore?
                        && config[i].id in ifs && ifs[config[i].id] == name
    ensures name in Gone(ifs0, Desired(config)) <==>
            exists p :: p in ifs0 && ifs0[p] == name && forall i :: 0 <= i < |config| ==> config[i].id != p
  {
  }

  lemma NamesRead(ifs: map<PeerId, string>, bound: nat, p: PeerId)
    requires WellNamed(ifs, bound) && p in ifs
    ensures exists k: nat :: k < bound && ifs[p] == "mza" + Decimal(k)
  {
    var k: nat :| k < bound && ifs[p] == IfName(k);
  }

  /** A pass in plain words: who is mapped, which ports they have, and which interfaces there are. */
  method ReconcilePlainly(m: Mappings, config: seq<ConfigPeer>, setups: seq<Setup>)
    returns (ok: bool, reported: seq<(PeerId, nat)>, ghost given: seq<nat>)
    requires m.Valid() && (!m.dirty ==> m.InStep()) && |setups| == |config| && UniqueIds(config)
    modifies m`peerToIf, m`peerToPort, m`dirty, m`peak, m`interfaces, m`file
    ensures m.Valid()
    ensures ok ==> forall p :: p in m.peerToIf <==>
              || (p in old(m.peerToIf) && exists i :: 0 <= i < |config| && config[i].id == p)
              || (exists i :: 0 <= i < |config| && config[i].id == p && config[i].pubkey != "")
    ensures ok ==> forall i :: 0 <= i < |config| && config[i].pubkey != "" ==>
              && config[i].id in m.peerToPort
              && (if config[i].listenPort > 0 then m.peerToPort[config[i].id] == config[i].listenPort
                  else if config[i].id in old(m.peerToPort)
                  then m.peerToPort[config[i].id] == old(m.peerToPort)[config[i].id]
                  else m.portRangeStart <= m.peerToPort[config[i].id] <= m.portRangeEnd)
    ensures ok ==> forall name :: name in m.interfaces <==>
              || (name in old(m.interfaces)
                  && !exists p :: p in old(m.peerToIf) && old(m.peerToIf)[p] == name
                                  && forall i :: 0 <= i < |config| ==> config[i].id != p)
              || (exists i :: 0 <= i < |config| && config[i].pubkey != "" && !setups[i].FailedBefore?
                              && config[i].id in m.peerToIf && m.peerToIf[config[i].id] == name)
  {
    hide WellNamed, LoadedIfs, LoadedPorts, KeyedIds, Desired, Assigned, UniqueIds, ServerAgrees, Injective, Built,
         Gone,
         PortsAfter, Reported, GapsFilled, InOrder, Chosen;
    ok, reported, given := m.Reconcile(config, setups);
    if ok {
      MappedReadAll(config);
      PortsReadAll(config, given, old(m.peerToPort), m.portRangeStart, m.portRangeEnd);
      InterfacesReadAll(config, setups, old(m.peerToIf), m.peerToIf);
    }
  }

  lemma MappedReadAll(config: seq<ConfigPeer>)
    ensures forall p :: p in KeyedIds(config) <==>
              exists i :: 0 <= i < |config| && config[i].id == p && config[i].pubkey != ""
    ensures forall p :: p in Desired(config) <==> exists i :: 0 <= i < |config| && config[i].id == p
  {
  }

  lemma PortsReadAll(config: seq<ConfigPeer>, given: seq<nat>, ports: map<PeerId, nat>, start: nat, end: nat)
    requires UniqueIds(config) && Legal(config, given, ports, start, end)
    ensures var left := Restrict(PortsAfter(config, given, ports), Desired(config));
            forall i :: 0 <= i < |config| && config[i].pubkey != "" ==>
              && config[i].id in left
              && (if config[i].listenPort > 0 then left[config[i].id] == config[i].listenPort
                  else if config[i].id in ports then left[config[i].id] == ports[config[i].id]
                  else start <= left[config[i].id] <= end)
  {
    hide UniqueIds, PortsAfter, Chosen;
    var left := Restrict(PortsAfter(config, given, ports), Desired(config));
    forall i | 0 <= i < |config| && config[i].pubkey != ""
      ensures config[i].id in left
      ensures if config[i].listenPort > 0 then left[config[i].id] == config[i].listenPort
              else if config[i].id in ports then left[config[i].id] == ports[config[i].id]
              else start <= left[config[i].id] <= end
    {
      PortsRead(config, given, ports, start, end, i);
    }
  }

  /** Every interface bears the name of an index below the peak number of mapped peers. */
  lemma NamesAreRead(m: Mappings, p: PeerId)
    requires m.Valid() && p in m.peerToIf
    ensures exists k: nat :: k < m.peak && m.peerToIf[p] == "mza" + Decimal(k)
  {
    NamesRead(m.peerToIf, m.peak, p);
  }

  lemma InterfacesReadAll(config: seq<ConfigPeer>, setups: seq<Setup>, ifs0: map<PeerId, string>,
                          ifs: map<PeerId, string>)
    requires |setups| == |config|
    ensures forall name :: name in Built(config, setups, ifs) <==>
              exists i :: 0 <= i < |config| && config[i].pubkey != "" && !setups[i].FailedBefore?
                          && config[i].id in ifs && ifs[config[i].id] == name
    ensures forall name :: name in Gone(ifs0, Desired(config)) <==>
              exists p :: p in ifs0 && ifs0[p] == name && forall i :: 0 <= i < |config| ==> config[i].id != p
  {
    hide Built, Gone, Desired;
    forall name ensures name in Built(config, setups, ifs) <==>
        exists i :: 0 <= i < |config| && config[i].pubkey != "" && !setups[i].FailedBefore?
                    && config[i].id in ifs && ifs[config[i].id] == name {
      InterfacesRead(config, setups, ifs0, ifs, name);
    }
    forall name ensures name in Gone(ifs0, Desired(config)) <==>
        exists p :: p in ifs0 && ifs0[p] == name && forall i :: 0 <= i < |config| ==> config[i].id != p {
      InterfacesRead(config, setups, ifs0, ifs, name);
    }
  }

  // ----- what can be told before a pass -----

  /** Some port of the range that the server names is not in use when a port is drawn for a peer before it. */
  predicate Drawable(config: seq<ConfigPeer>, ports: map<PeerId, nat>, start: nat, end: nat) {
    exists i, j :: 0 <= i < j < |config| && Draws(config[i], ports) && Named(config[j])
                   && start <= config[j].listenPort <= end
                   && config[j].listenPort !in Certain(config[..i], ports).Values
  }

  /** The ports of everyone else stay when one peer draws another port. */
  lemma {:induction false} RedrawnPorts(config: seq<ConfigPeer>, given: seq<nat>, ports: map<PeerId, nat>, i: nat,
                                        v: nat)
    requires UniqueIds(config) && |given| == |config| && i < |config| && Keyed(config[i])
    ensures PortsAfter(config, given[i := v], ports) == PortsAfter(config, given, ports)[config[i].id := v]
  {
    var l := |config| - 1;
    if i == l {
      assert given[i := v][..l] == given[..l];
    } else {
      assert given[i := v][..l] == given[..l][i := v];
      RedrawnPorts(config[..l], given[..l], ports, i, v);
    }
  }

  lemma FreeToDraw(config: seq<ConfigPeer>, given: seq<nat>, ports: map<PeerId, nat>, start: nat, end: nat, i: nat,
                   v: nat)
    requires UniqueIds(config) && Legal(config, given, ports, start, end) && i < |config| && Draws(config[i], ports)
    requires v !in Certain(config[..i], ports).Values
    requires forall k :: 0 <= k < i && Draws(config[k], ports) ==> given[k] != v
    ensures v !in PortsAfter(config[..i], given[..i], ports).Values
    ensures config[i].id !in PortsAfter(config[..i], given[..i], ports)
  {
    LegalBefore(config, given, ports, start, end, i);
    Shape(config[..i], given[..i], ports, start, end);
    assert config[..i] + [config[i]] == config[..i + 1];
    NewHere(config[..i], ports, config[i]);
    CertainMeans(config[..i], ports);
    var before := PortsAfter(config[..i], given[..i], ports);
    forall p | p in before ensures before[p] != v {
      if p !in Certain(config[..i], ports) {
        var k :| 0 <= k < i && Draws(config[..i][k], ports) && config[..i][k].id == p;
        assert config[..i][k] == config[k] && given[..i][k] == given[k];
      }
    }
  }

  /** A peer may draw any other port that is free at its turn, if nobody draws that later. */
  lemma Redraw(config: seq<ConfigPeer>, given: seq<nat>, ports: map<PeerId, nat>, start: nat, end: nat, i: nat, v: nat)
    requires UniqueIds(config) && Legal(config, given, ports, start, end) && i < |config| && Draws(config[i], ports)
    requires start <= v <= end && v !in Certain(config[..i], ports).Values
    requires forall k :: 0 <= k < |config| && Draws(config[k], ports) ==> given[k] != v
    ensures Legal(config, given[i := v], ports, start, end)
  {
    FreeToDraw(config, given, ports, start, end, i, v);
    CertainMeans(config, ports);
    forall k | 0 <= k < |config| && Keyed(config[k])
      ensures Chosen(config[k], PortsAfter(config[..k], given[i := v][..k], ports), given[i := v][k], start, end)
    {
      hide Certain;
      if k <= i {
        assert given[i := v][..k] == given[..k];
      } else {
        assert given[i := v][..k] == given[..k][i := v];
        RedrawnPorts(config[..k], given[..k], ports, i, v);
        OthersChoose(config, given, ports, start, end, i, v, k);
      }
    }
  }

  lemma {:induction false} HeldStays(config: seq<ConfigPeer>, given: seq<nat>, ports: map<PeerId, nat>)
    requires |given| == |config|
    ensures ports.Keys <= PortsAfter(config, given, ports).Keys
  {
    if config != [] { HeldStays(config[..|config| - 1], given[..|config| - 1], ports); }
  }

  lemma OthersChoose(config: seq<ConfigPeer>, given: seq<nat>, ports: map<PeerId, nat>, start: nat, end: nat, i: nat,
                     v: nat, k: nat)
    requires UniqueIds(config) && Legal(config, given, ports, start, end) && i < k < |config| && Keyed(config[k])
    requires Draws(config[k], ports) ==> given[k] != v
    ensures Chosen(config[k], PortsAfter(config[..k], given[..k], ports)[config[i].id := v], given[k], start, end)
  {
    HeldStays(config[..k], given[..k], ports);
    var before := PortsAfter(config[..k], given[..k], ports);
    var before' := before[config[i].id := v];
    assert config[k].id != config[i].id;
    assert before'.Values <= before.Values + {v};
  }

  /** With a port in the range that can be drawn and then named, some pass of those possible ends with a clash. */
  lemma SomePassClashes(config: seq<ConfigPeer>, given: seq<nat>, ports: map<PeerId, nat>, start: nat, end: nat)
    returns (given': seq<nat>)
    requires UniqueIds(config) && Legal(config, given, ports, start, end) && Drawable(config, ports, start, end)
    ensures Legal(config, given', ports, start, end) && DrawnThenNamed(config, given', ports)
  {
    hide Chosen, PortsAfter, Certain, UniqueIds;
    var i, j :| 0 <= i < j < |config| && Draws(config[i], ports) && Named(config[j])
                && start <= config[j].listenPort <= end && config[j].listenPort !in Certain(config[..i], ports).Values;
    var v := config[j].listenPort;
    if DrawnThenNamed(config, given, ports) {
      given' := given;
    } else {
      forall k | 0 <= k < |config| && Draws(config[k], ports) ensures given[k] != v {
        if j < k { NamedIsNotDrawn(config, given, ports, start, end, j, k); }
      }
      hide DrawnThenNamed;
      Redraw(config, given, ports, start, end, i, v);
      given' := given[i := v];
      ClashAt(config, given', ports, i, j);
    }
  }

  lemma ClashAt(config: seq<ConfigPeer>, given: seq<nat>, ports: map<PeerId, nat>, i: nat, j: nat)
    requires |given| == |config| && i < j < |config| && Draws(config[i], ports) && Named(config[j])
    requires given[i] == config[j].listenPort
    ensures DrawnThenNamed(config, given, ports)
  {
  }

  lemma NamedIsNotDrawn(config: seq<ConfigPeer>, given: seq<nat>, ports: map<PeerId, nat>, start: nat, end: nat, j: nat,
                        k: nat)
    requires UniqueIds(config) && Legal(config, given, ports, start, end)
    requires j < k < |config| && Named(config[j]) && Draws(config[k], ports)
    ensures given[k] != config[j].listenPort
  {
    DrawnIsFresh(config, given, ports, start, end, k);
    CertainMeans(config[..k], ports);
    assert config[..k][j] == config[j];
  }

  /** Told before a pass that can succeed at all: however its ports are drawn they will be distinct, if and only if
      the certain ones are, and no port of the range is named for a peer behind one that draws while it is free. */
  lemma SurelyApartIff(config: seq<ConfigPeer>, ports: map<PeerId, nat>, start: nat, end: nat)
    requires UniqueIds(config) && exists given :: Legal(config, given, ports, start, end)
    ensures (forall given :: Legal(config, given, ports, start, end) ==>
               Injective(Restrict(PortsAfter(config, given, ports), Desired(config))))
            <==> Injective(Restrict(Certain(config, ports), Desired(config))) && !Drawable(config, ports, start, end)
  {
    hide Injective, PortsAfter, UniqueIds, Chosen, DrawnThenNamed, Certain, Drawable;
    var given :| Legal(config, given, ports, start, end);
    ApartIffNothingClashes(config, given, ports, start, end);
    if Drawable(config, ports, start, end) {
      var given' := SomePassClashes(config, given, ports, start, end);
      ApartIffNothingClashes(config, given', ports, start, end);
    } else {
      forall g | Legal(config, g, ports, start, end)
        ensures Injective(Restrict(PortsAfter(config, g, ports), Desired(config)))
                <==> Injective(Restrict(Certain(config, ports), Desired(config)))
      {
        ApartIffNothingClashes(config, g, ports, start, end);
        ClashIsDrawable(config, g, ports, start, end);
      }
    }
  }

  lemma ClashIsDrawable(config: seq<ConfigPeer>, given: seq<nat>, ports: map<PeerId, nat>, start: nat, end: nat)
    requires UniqueIds(config) && Legal(config, given, ports, start, end)
    ensures DrawnThenNamed(config, given, ports) ==> Drawable(config, ports, start, end)
  {
    if i, j :| 0 <= i < j < |config| && Draws(config[i], ports) && Named(config[j])
               && given[i] == config[j].listenPort
    {
      DrawnIsFresh(config, given, ports, start, end, i);
    }
  }

  // ----- a clash -----

  /** On an empty host peer a draws the very port that the server then names for peer b. */
  lemma NamedPortClashes(q: nat, start: nat, end: nat)
    requires 0 < start <= q <= end
    ensures var config, given := [ConfigPeer("a", "key", 0), ConfigPeer("b", "key", q)], [q, q];
            && UniqueIds(config) && Legal(config, given, map[], start, end)
            && PortsAfter(config, given, map[]) == map["a" := q, "b" := q]
            && !Injective(Restrict(PortsAfter(config, given, map[]), Desired(config)))
  {
    var a, b := ConfigPeer("a", "key", 0), ConfigPeer("b", "key", q);
    assert PortsAfter([], [], map[]) == map[];
    TurnTaken([], [], map[], start, end, a, q);
    TurnTaken([a], [q], map[], start, end, b, q);
    assert [a] + [b] == [a, b] && [q] + [q] == [q, q] && [] + [a] == [a] && [] + [q] == [q];
    var left := Restrict(PortsAfter([a, b], [q, q], map[]), Desired([a, b]));
    assert [a, b][0] == a && [a, b][1] == b;
    assert "a" in left && "b" in left && left["a"] == left["b"];
  }

  // ----- the report -----

  predicate SetUp(config: seq<ConfigPeer>, setups: seq<Setup>, p: PeerId)
    requires |setups| == |config|
  {
    exists i :: 0 <= i < |config| && Keyed(config[i]) && setups[i].Done? && config[i].id == p
  }

  /** With distinct ids, what a pass reports is the port of each peer whose interface was set up without an error. */
  lemma {:induction false} ReportIsHeld(config: seq<ConfigPeer>, setups: seq<Setup>, given: seq<nat>,
                                        ports: map<PeerId, nat>)
    requires |setups| == |given| == |config| && UniqueIds(config)
    ensures var after := PortsAfter(config, given, ports);
            forall p, n :: (p, n) in Reported(config, setups, given) <==>
                           SetUp(config, setups, p) && p in after && after[p] == n
  {
    if config != [] {
      var l := |config| - 1;
      ReportIsHeld(config[..l], setups[..l], given[..l], ports);
      SetUpNext(config, setups);
    }
  }

  lemma SetUpNext(config: seq<ConfigPeer>, setups: seq<Setup>)
    requires config != [] && |setups| == |config| && UniqueIds(config)
    ensures var l := |config| - 1;
            && (forall p :: SetUp(config, setups, p) <==>
                            SetUp(config[..l], setups[..l], p)
                                || (Keyed(config[l]) && setups[l].Done? && config[l].id == p))
            && !SetUp(config[..l], setups[..l], config[l].id)
  {
    var l := |config| - 1;
    forall p | SetUp(config[..l], setups[..l], p) ensures SetUp(config, setups, p) && p != config[l].id {
      var i :| 0 <= i < l && Keyed(config[..l][i]) && setups[..l][i].Done? && config[..l][i].id == p;
      assert config[i].id == p && setups[i].Done?;
    }
    forall p | SetUp(config, setups, p)
      ensures SetUp(config[..l], setups[..l], p) || (Keyed(config[l]) && setups[l].Done? && config[l].id == p)
    {
      var i :| 0 <= i < |config| && Keyed(config[i]) && setups[i].Done? && config[i].id == p;
      if i < l { assert config[..l][i] == config[i] && setups[..l][i] == setups[i]; }
    }
  }
}
