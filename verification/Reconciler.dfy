/** The tunnel reconciler: packages/agent/src/reconciler.ts. */
module Reconciler {
  import opened Common
  import opened Decimals
  import opened PairKeys

  /** `mza${k}`. */
  function IfName(k: nat): string {
    "mza" + Decimal(k)
  }

  predicate IsIfName(name: string) {
    |name| > 3 && name[..3] == "mza" && AllDigits(name[3..])
  }

  function IfIndex(name: string): nat
    requires IsIfName(name)
  {
    ValueOf(name[3..])
  }

  lemma NameHasIndex(k: nat)
    ensures IsIfName(IfName(k)) && IfIndex(IfName(k)) == k
  {
    assert IfName(k)[3..] == Decimal(k);
    ValueOfDecimal(k);
  }

  /** A peer of the polled config; 0 stands for a port the server does not know. */
  datatype ConfigPeer = ConfigPeer(id: PeerId, pubkey: string, listenPort: nat)

  /** How setting up an interface went: it may fail before or after the interface exists. */
  datatype Setup = Done | FailedBefore | FailedAfter

  /** One line of mappings.json; port 0 stands for none. */
  datatype Mapping = Mapping(ifIndex: nat, port: nat)

  /** A peer with a key whose interface the pass sets up. */
  predicate Keyed(p: ConfigPeer) { p.pubkey != "" }

  function Desired(config: seq<ConfigPeer>): set<PeerId> {
    set i | 0 <= i < |config| :: config[i].id
  }

  function KeyedIds(config: seq<ConfigPeer>): set<PeerId> {
    set i | 0 <= i < |config| && Keyed(config[i]) :: config[i].id
  }

  predicate UniqueIds(config: seq<ConfigPeer>) {
    forall i, j :: 0 <= i < j < |config| ==> config[i].id != config[j].id
  }

  // ----- the map of interfaces -----

  /** Every name is that of an index below the bound, and no two peers share one. */
  ghost predicate WellNamed(ifs: map<PeerId, string>, bound: nat) {
    && |ifs| <= bound
    && Injective(ifs)
    && forall p :: p in ifs ==> exists k: nat :: k < bound && ifs[p] == IfName(k)
  }

  ghost predicate Names(ifs: map<PeerId, string>, k: nat) {
    exists p :: p in ifs && ifs[p] == IfName(k)
  }

  /** The least index that no peer's interface has. */
  ghost predicate LeastUnused(ifs: map<PeerId, string>, k: nat) {
    !Names(ifs, k) && forall j: nat :: j < k ==> Names(ifs, j)
  }

  /** A known peer keeps its name; a new one is named by the least unused index. */
  ghost predicate Allotted(ifs: map<PeerId, string>, ifs': map<PeerId, string>, id: PeerId) {
    if id in ifs then ifs' == ifs
    else exists k: nat :: LeastUnused(ifs, k) && k <= |ifs| && ifs' == ifs[id := IfName(k)]
  }

  /** Every name new since ifs0 fills a gap, and no smaller gap is left. */
  ghost predicate GapsFilled(ifs0: map<PeerId, string>, ifs: map<PeerId, string>) {
    forall p :: p in ifs && p !in ifs0 ==> FillsGap(ifs0, ifs, ifs[p])
  }

  ghost predicate FillsGap(ifs0: map<PeerId, string>, ifs: map<PeerId, string>, name: string) {
    exists k: nat :: name == IfName(k) && !Names(ifs0, k) && forall j: nat :: j < k ==> Names(ifs0, j) || Names(ifs, j)
  }

  /** Peers new since ifs0 got their indices in the order of the config. */
  ghost predicate InOrder(config: seq<ConfigPeer>, ifs0: map<PeerId, string>, ifs: map<PeerId, string>) {
    forall i, j :: 0 <= i < j < |config| && New(config[i], ifs0, ifs) && New(config[j], ifs0, ifs) ==>
      Sooner(ifs[config[i].id], ifs[config[j].id])
  }

  predicate New(peer: ConfigPeer, ifs0: map<PeerId, string>, ifs: map<PeerId, string>) {
    Keyed(peer) && peer.id in ifs && peer.id !in ifs0
  }

  ghost predicate Sooner(name: string, other: string) {
    forall k: nat, l: nat :: name == IfName(k) && other == IfName(l) ==> k < l
  }

  lemma NamesDiffer(k: nat, l: nat)
    ensures IfName(k) == IfName(l) ==> k == l
  {
    NameHasIndex(k);
    NameHasIndex(l);
  }

  /** One more name keeps the gaps filled: every index below a new one was named when it was taken, and stays so. */
  lemma GapsFilledNext(ifs0: map<PeerId, string>, ifs: map<PeerId, string>, ifs': map<PeerId, string>, id: PeerId)
    requires GapsFilled(ifs0, ifs) && Allotted(ifs, ifs', id) && forall p :: p in ifs0 ==> p in ifs && ifs[p] == ifs0[p]
    ensures GapsFilled(ifs0, ifs')
  {
    hide IfName;
    NamesStay(ifs, ifs', id);
    NamesGrow(ifs0, ifs);
    forall p | p in ifs' && p !in ifs0 ensures FillsGap(ifs0, ifs', ifs'[p]) {
      if p in ifs && ifs'[p] == ifs[p] {
        assert FillsGap(ifs0, ifs, ifs[p]);
      } else {
        var k: nat :| LeastUnused(ifs, k) && ifs' == ifs[id := IfName(k)];
        assert ifs'[p] == IfName(k) && !Names(ifs0, k);
      }
    }
  }

  lemma NamesGrow(ifs: map<PeerId, string>, more: map<PeerId, string>)
    requires forall p :: p in ifs ==> p in more && more[p] == ifs[p]
    ensures forall k: nat :: Names(ifs, k) ==> Names(more, k)
  {
    hide IfName;
  }

  lemma NamesStay(ifs: map<PeerId, string>, ifs': map<PeerId, string>, id: PeerId)
    requires Allotted(ifs, ifs', id)
    ensures forall k: nat :: Names(ifs, k) ==> Names(ifs', k)
  {
    hide IfName, LeastUnused;
    NamesGrow(ifs, ifs');
  }

  /** A name taken later has a greater index than every name new before. */
  lemma LaterIsGreater(ifs0: map<PeerId, string>, ifs: map<PeerId, string>, ifs': map<PeerId, string>, id: PeerId,
                       p: PeerId)
    requires GapsFilled(ifs0, ifs) && Allotted(ifs, ifs', id) && id !in ifs && p in ifs && p !in ifs0
    requires forall q :: q in ifs0 ==> q in ifs && ifs[q] == ifs0[q]
    ensures Sooner(ifs[p], ifs'[id])
  {
    hide IfName;
    NamesGrow(ifs0, ifs);
    var l: nat :| LeastUnused(ifs, l) && ifs' == ifs[id := IfName(l)];
    assert FillsGap(ifs0, ifs, ifs[p]);
    var k: nat :| ifs[p] == IfName(k) && !Names(ifs0, k)
                  && forall j: nat :: j < k ==> Names(ifs0, j) || Names(ifs, j);
    assert Names(ifs, k);
    forall k': nat, l': nat | ifs[p] == IfName(k') && ifs'[id] == IfName(l') ensures k' < l' {
      NamesDiffer(k, k');
      NamesDiffer(l, l');
    }
  }

  lemma InOrderNext(config: seq<ConfigPeer>, peer: ConfigPeer, ifs0: map<PeerId, string>, ifs: map<PeerId, string>,
                    ifs': map<PeerId, string>)
    requires InOrder(config, ifs0, ifs) && GapsFilled(ifs0, ifs)
    requires ifs0.Keys <= ifs.Keys <= ifs0.Keys + KeyedIds(config)
    requires forall p :: p in ifs0 ==> ifs[p] == ifs0[p]
    requires if Keyed(peer) then Allotted(ifs, ifs', peer.id) else ifs' == ifs
    requires UniqueIds(config + [peer])
    requires KeyedIds(config) <= ifs.Keys
    ensures InOrder(config + [peer], ifs0, ifs')
  {
    hide IfName, GapsFilled, LeastUnused, Sooner;
    var more := config + [peer];
    assert more[|config|] == peer;
    forall k | 0 <= k < |config| ensures config[k].id != peer.id { assert more[k] == config[k]; }
    forall i, j | 0 <= i < j < |more| && New(more[i], ifs0, ifs') && New(more[j], ifs0, ifs')
      ensures Sooner(ifs'[more[i].id], ifs'[more[j].id])
    {
      assert more[i] == config[i] && config[i].id in KeyedIds(config) && more[i].id != more[j].id;
      if j < |config| {
        assert more[j] == config[j] && config[j].id in KeyedIds(config) && config[j].id != peer.id;
        assert New(config[i], ifs0, ifs) && New(config[j], ifs0, ifs);
      } else {
        assert peer.id !in KeyedIds(config);
        LaterIsGreater(ifs0, ifs, ifs', peer.id, config[i].id);
      }
    }
  }

  lemma NameIsIndexed(ifs: map<PeerId, string>, bound: nat, p: PeerId)
    requires WellNamed(ifs, bound) && p in ifs
    ensures IsIfName(ifs[p]) && ifs[p] == IfName(IfIndex(ifs[p])) && IfIndex(ifs[p]) < bound
  {
    var k: nat :| k < bound && ifs[p] == IfName(k);
    NameHasIndex(k);
  }

  lemma Named(ifs: map<PeerId, string>, p: PeerId, k: nat)
    requires p in ifs && IsIfName(ifs[p]) && ifs[p] == IfName(IfIndex(ifs[p]))
    ensures ifs[p] == IfName(k) <==> IfIndex(ifs[p]) == k
  {
    NameHasIndex(k);
  }

  lemma Added(ifs: map<PeerId, string>, bound: nat, p: PeerId, k: nat)
    requires WellNamed(ifs, bound) && p !in ifs && LeastUnused(ifs, k) && k <= |ifs|
    ensures WellNamed(ifs[p := IfName(k)], Max(bound, |ifs| + 1))
  {
    var more := ifs[p := IfName(k)];
    assert |more| == |ifs| + 1 by { assert more.Keys == ifs.Keys + {p}; }
    forall q | q in ifs ensures ifs[q] != IfName(k) {
      assert !Names(ifs, k);
    }
  }

  function Max(a: nat, b: nat): nat { if a >= b then a else b }

  lemma Fewer(ifs: map<PeerId, string>, bound: nat, lower: nat, rest: map<PeerId, string>)
    requires WellNamed(ifs, lower) && lower <= bound && forall p :: p in rest ==> p in ifs && rest[p] == ifs[p]
    ensures WellNamed(rest, bound)
  {
    SubsetCounts(rest.Keys, ifs.Keys);
  }

  lemma AllIndexed(ifs: map<PeerId, string>, bound: nat)
    requires WellNamed(ifs, bound)
    ensures Listed(ifs)
  {
    forall p | p in ifs ensures IsIfName(ifs[p]) { NameIsIndexed(ifs, bound, p); }
  }

  /** The used indices, as getIfName collects them. */
  function Indices(ifs: map<PeerId, string>): set<nat>
    requires Listed(ifs)
  {
    set p | p in ifs :: IfIndex(ifs[p])
  }

  lemma IndicesMean(ifs: map<PeerId, string>, bound: nat)
    requires WellNamed(ifs, bound) && Listed(ifs)
    ensures forall k: nat :: k in Indices(ifs) <==> Names(ifs, k)
    ensures |Indices(ifs)| <= |ifs|
  {
    hide WellNamed, IfName, IfIndex;
    var indices := map p | p in ifs :: IfIndex(ifs[p]);
    ImageCounts(indices);
    forall v | v in indices.Values ensures v in Indices(ifs) {
      var p :| p in indices && indices[p] == v;
    }
    forall p | p in ifs ensures IfIndex(ifs[p]) in indices.Values { assert p in indices; }
    assert Indices(ifs) == indices.Values && indices.Keys == ifs.Keys;
    forall k: nat ensures k in Indices(ifs) <==> Names(ifs, k) {
      forall p | p in ifs ensures ifs[p] == IfName(k) <==> IfIndex(ifs[p]) == k {
        NameIsIndexed(ifs, bound, p);
        Named(ifs, p, k);
      }
    }
  }

  // ----- the file -----

  predicate Listed(ifs: map<PeerId, string>) {
    forall p :: p in ifs ==> IsIfName(ifs[p])
  }

  function Saved(ifs: map<PeerId, string>, ports: map<PeerId, nat>): map<PeerId, Mapping>
    requires Listed(ifs)
  {
    map p | p in ifs :: Mapping(IfIndex(ifs[p]), if p in ports then ports[p] else 0)
  }

  function LoadedIfs(file: map<PeerId, Mapping>): map<PeerId, string> {
    map p | p in file :: IfName(file[p].ifIndex)
  }

  function LoadedPorts(file: map<PeerId, Mapping>): map<PeerId, nat> {
    map p | p in file && file[p].port != 0 :: file[p].port
  }

  /** Loading what was saved gives back both maps. */
  lemma {:induction false} LoadAfterSave(ifs: map<PeerId, string>, bound: nat, ports: map<PeerId, nat>)
    requires WellNamed(ifs, bound) && ports.Keys <= ifs.Keys && forall p :: p in ports ==> ports[p] != 0
    ensures Listed(ifs) && LoadedIfs(Saved(ifs, ports)) == ifs && LoadedPorts(Saved(ifs, ports)) == ports
  {
    hide WellNamed, IfName, IsIfName, IfIndex;
    forall p | p in ifs ensures IsIfName(ifs[p]) && IfName(IfIndex(ifs[p])) == ifs[p] {
      NameIsIndexed(ifs, bound, p);
    }
  }

  /** The search for the least number not in use ends after at most as many steps as there are numbers. */
  method FirstGap(used: set<nat>) returns (idx: nat)
    ensures idx !in used && idx <= |used| && forall j: nat :: j < idx ==> j in used
  {
    idx := 0;
    while idx in used
      invariant Range(0, idx) <= used && idx <= |used|
      decreases |used| - idx
    {
      idx := idx + 1;
      SubsetCounts(Range(0, idx), used);
    }
    assert forall j: nat :: j < idx ==> j in Range(0, idx);
  }

  lemma {:induction false} ImageCounts<K, V>(m: map<K, V>)
    ensures |m.Values| <= |m.Keys|
    decreases |m.Keys|
  {
    if m.Keys == {} {
      assert m.Values == {};
    } else {
      var k :| k in m;
      var rest := m - {k};
      ImageCounts(rest);
      assert rest.Keys == m.Keys - {k};
      forall v | v in m.Values ensures v in rest.Values + {m[k]} {
        var j :| j in m && m[j] == v;
        assert j == k || j in rest;
      }
      SubsetCounts(m.Values, rest.Values + {m[k]});
    }
  }

  // ----- what a pass is to do -----

  /** The interfaces a pass sets up, as far as they come to exist. */
  function Built(config: seq<ConfigPeer>, setups: seq<Setup>, ifs: map<PeerId, string>): set<string>
    requires |setups| == |config|
  {
    set i | 0 <= i < |config| && Keyed(config[i]) && config[i].id in ifs && !setups[i].FailedBefore? ::
            ifs[config[i].id]
  }

  /** The interfaces of mapped peers that the config no longer has. */
  function Gone(ifs: map<PeerId, string>, desired: set<PeerId>): set<string> {
    set p | p in ifs && p !in desired :: ifs[p]
  }

  function Restrict<V>(m: map<PeerId, V>, keep: set<PeerId>): map<PeerId, V> {
    map p | p in m && p in keep :: m[p]
  }

  lemma AllKept(ifs: map<PeerId, string>, ports: map<PeerId, nat>, keep: set<PeerId>)
    requires ifs.Keys <= keep && ports.Keys <= keep
    ensures Gone(ifs, keep) == {} && Restrict(ifs, keep) == ifs && Restrict(ports, keep) == ports
  {
  }

  lemma OneGone(ifs: map<PeerId, string>, ports: map<PeerId, nat>, keep: set<PeerId>, p: PeerId)
    requires p in ifs && p in keep
    ensures p in Restrict(ifs, keep) && Restrict(ifs, keep)[p] == ifs[p]
    ensures Gone(ifs, keep - {p}) == Gone(ifs, keep) + {ifs[p]}
    ensures Restrict(ifs, keep - {p}) == Restrict(ifs, keep) - {p}
    ensures Restrict(ports, keep - {p}) == Restrict(ports, keep) - {p}
  {
  }

  /** Every peer with a key has its interface and its port, the server's where the server knows one. */
  predicate Assigned(config: seq<ConfigPeer>, ifs: map<PeerId, string>, ports: map<PeerId, nat>) {
    forall i :: 0 <= i < |config| && Keyed(config[i]) ==>
      && config[i].id in ifs && config[i].id in ports
      && (config[i].listenPort > 0 ==> ports[config[i].id] == config[i].listenPort)
  }

  /** Where the server knows a port it is the one this host has. */
  predicate ServerAgrees(config: seq<ConfigPeer>, ports: map<PeerId, nat>) {
    forall i :: 0 <= i < |config| && config[i].listenPort > 0 ==>
      config[i].id in ports && ports[config[i].id] == config[i].listenPort
  }

  // ----- ports -----

  /** The port a turn of the loop settles on: the server's, else the one held, else a free one of the range. */
  predicate Chosen(peer: ConfigPeer, ports: map<PeerId, nat>, port: nat, start: nat, end: nat) {
    if peer.listenPort > 0 then port == peer.listenPort
    else if peer.id in ports then port == ports[peer.id]
    else start <= port <= end && port !in ports.Values
  }

  /** The ports held after the loop, `given` being what each turn settled on. */
  function PortsAfter(config: seq<ConfigPeer>, given: seq<nat>, ports: map<PeerId, nat>): map<PeerId, nat>
    requires |given| == |config|
  {
    if config == [] then ports
    else
      var l := |config| - 1;
      var before := PortsAfter(config[..l], given[..l], ports);
      if Keyed(config[l]) then before[config[l].id := given[l]] else before
  }

  /** Each turn can settle on what it did. */
  predicate Legal(config: seq<ConfigPeer>, given: seq<nat>, ports: map<PeerId, nat>, start: nat, end: nat) {
    && |given| == |config|
    && forall k :: 0 <= k < |config| && Keyed(config[k]) ==>
         Chosen(config[k], PortsAfter(config[..k], given[..k], ports), given[k], start, end)
  }

  /** What a pass reports: the port of every peer whose interface was set up without an error. */
  function Reported(config: seq<ConfigPeer>, setups: seq<Setup>, given: seq<nat>): seq<(PeerId, nat)>
    requires |setups| == |given| == |config|
  {
    if config == [] then []
    else
      var l := |config| - 1;
      Reported(config[..l], setups[..l], given[..l])
      + if Keyed(config[l]) && setups[l].Done? then [(config[l].id, given[l])] else []
  }

  lemma TurnTaken(config: seq<ConfigPeer>, given: seq<nat>, ports: map<PeerId, nat>, start: nat, end: nat,
                  peer: ConfigPeer, port: nat)
    requires Legal(config, given, ports, start, end)
    requires Keyed(peer) ==> Chosen(peer, PortsAfter(config, given, ports), port, start, end)
    ensures Legal(config + [peer], given + [port], ports, start, end)
    ensures PortsAfter(config + [peer], given + [port], ports)
            == if Keyed(peer) then PortsAfter(config, given, ports)[peer.id := port]
               else PortsAfter(config, given, ports)
  {
    hide Chosen;
    var c, g := config + [peer], given + [port];
    assert c[..|config|] == config && g[..|given|] == given;
    forall k | 0 <= k < |c| && Keyed(c[k]) ensures Chosen(c[k], PortsAfter(c[..k], g[..k], ports), g[k], start, end) {
      if k < |config| {
        assert c[..k] == config[..k] && g[..k] == given[..k] && c[k] == config[k] && g[k] == given[k];
      }
    }
  }

  lemma ReportedNext(config: seq<ConfigPeer>, setups: seq<Setup>, given: seq<nat>, peer: ConfigPeer, setup: Setup,
                     port: nat)
    requires |setups| == |given| == |config|
    ensures Reported(config + [peer], setups + [setup], given + [port])
            == Reported(config, setups, given) + if Keyed(peer) && setup.Done? then [(peer.id, port)] else []
  {
    var l := |config|;
    assert (config + [peer])[..l] == config && (setups + [setup])[..l] == setups && (given + [port])[..l] == given;
  }

  lemma ReportedNone()
    ensures Reported([], [], []) == []
  {
  }

  // ----- the first loop, on values -----

  datatype Held = Held(ifs: map<PeerId, string>, ports: map<PeerId, nat>, dirty: bool, interfaces: set<string>)

  /** Setting up one peer with a key. */
  ghost predicate Stepped(h: Held, h': Held, peer: ConfigPeer, setup: Setup, port: nat, start: nat, end: nat) {
    && Allotted(h.ifs, h'.ifs, peer.id)
    && h'.ports == h.ports[peer.id := port]
    && h'.interfaces == (if setup.FailedBefore? then h.interfaces else h.interfaces + {h'.ifs[peer.id]})
    && Chosen(peer, h.ports, port, start, end)
    && (peer.id in h.ifs && h'.ports == h.ports ==> h'.dirty == h.dirty)
  }

  /** Mapped peers keep their interfaces; exactly the peers with a key are added, in the order of the config, each
      under the least unused index; what was assigned before is left alone; ports stay apart if the server's agree
      with this host's. */
  ghost predicate Progress(config: seq<ConfigPeer>, h0: Held, h: Held) {
    && h.ifs.Keys == h0.ifs.Keys + KeyedIds(config)
    && (forall p :: p in h0.ifs ==> h.ifs[p] == h0.ifs[p])
    && GapsFilled(h0.ifs, h.ifs) && (UniqueIds(config) ==> InOrder(config, h0.ifs, h.ifs))
    && (UniqueIds(config) ==> Assigned(config, h.ifs, h.ports))
    && (Assigned(config, h0.ifs, h0.ports) ==> h.ifs == h0.ifs && h.ports == h0.ports && h.dirty == h0.dirty)
    && (Injective(h0.ports) && ServerAgrees(config, h0.ports) ==> Injective(h.ports) && Keeps(h0.ports, h.ports))
  }

  ghost predicate Keeps(ports: map<PeerId, nat>, ports': map<PeerId, nat>) {
    forall p :: p in ports ==> p in ports' && ports'[p] == ports[p]
  }

  lemma KeyedNext(config: seq<ConfigPeer>, peer: ConfigPeer)
    ensures KeyedIds(config + [peer]) == KeyedIds(config) + if Keyed(peer) then {peer.id} else {}
  {
    var more := config + [peer];
    assert more[|config|] == peer;
    forall i | 0 <= i < |config| && Keyed(config[i]) ensures config[i].id in KeyedIds(more) {
      assert more[i] == config[i];
    }
  }

  lemma AssignedPrefix(config: seq<ConfigPeer>, peer: ConfigPeer, ifs: map<PeerId, string>, ports: map<PeerId, nat>)
    ensures Assigned(config + [peer], ifs, ports) <==>
              && Assigned(config, ifs, ports)
              && (Keyed(peer) ==>
                  peer.id in ifs && peer.id in ports && (peer.listenPort > 0 ==> ports[peer.id] == peer.listenPort))
  {
    var more := config + [peer];
    if Assigned(more, ifs, ports) {
      forall i | 0 <= i < |config| && Keyed(config[i])
        ensures config[i].id in ifs && config[i].id in ports
        ensures (config[i].listenPort > 0 ==> ports[config[i].id] == config[i].listenPort)
      {
        assert more[i] == config[i];
      }
      assert more[|config|] == peer;
    }
  }

  lemma PrefixFacts(config: seq<ConfigPeer>, peer: ConfigPeer, ports: map<PeerId, nat>)
    ensures UniqueIds(config + [peer]) ==> UniqueIds(config) && forall i ::
            0 <= i < |config| ==> config[i].id != peer.id
    ensures ServerAgrees(config + [peer], ports) ==>
              ServerAgrees(config, ports)
                  && (peer.listenPort > 0 ==> peer.id in ports && ports[peer.id] == peer.listenPort)
  {
    var more := config + [peer];
    assert forall i :: 0 <= i < |config| ==> more[i] == config[i];
    assert more[|config|] == peer;
  }

  lemma ProgressStart(h: Held)
    ensures Progress([], h, h) && Built([], [], h.ifs) == {}
  {
    hide FillsGap, Sooner;
    assert KeyedIds([]) == {};
  }

  lemma AssignedAt(config: seq<ConfigPeer>, i: nat, ifs: map<PeerId, string>, ports: map<PeerId, nat>)
    requires i < |config| && Assigned(config, ifs, ports)
    ensures Assigned(config[..i], ifs, ports) && (Keyed(config[i]) ==> config[i].id in ports)
  {
  }

  lemma ProgressSkip(config: seq<ConfigPeer>, h0: Held, h: Held, peer: ConfigPeer)
    requires Progress(config, h0, h) && !Keyed(peer)
    ensures Progress(config + [peer], h0, h)
  {
    hide KeyedIds, Assigned, ServerAgrees, UniqueIds, Injective, GapsFilled, InOrder;
    KeyedNext(config, peer);
    AssignedPrefix(config, peer, h.ifs, h.ports);
    AssignedPrefix(config, peer, h0.ifs, h0.ports);
    PrefixFacts(config, peer, h0.ports);
    if UniqueIds(config + [peer]) { InOrderNext(config, peer, h0.ifs, h.ifs, h.ifs); }
  }

  lemma ProgressNext(config: seq<ConfigPeer>, h0: Held, h: Held, peer: ConfigPeer, setup: Setup, h': Held, port: nat,
                     start: nat, end: nat)
    requires Progress(config, h0, h) && Keyed(peer) && Stepped(h, h', peer, setup, port, start, end)
    ensures Progress(config + [peer], h0, h')
  {
    hide KeyedIds, Assigned, ServerAgrees, UniqueIds, Injective, GapsFilled, InOrder, Allotted, LeastUnused;
    AllottedAdds(h.ifs, h'.ifs, peer.id);
    GapsFilledNext(h0.ifs, h.ifs, h'.ifs, peer.id);
    KeyedNext(config, peer);
    AssignedPrefix(config, peer, h'.ifs, h'.ports);
    AssignedPrefix(config, peer, h0.ifs, h0.ports);
    PrefixFacts(config, peer, h0.ports);
    if UniqueIds(config + [peer]) {
      InOrderNext(config, peer, h0.ifs, h.ifs, h'.ifs);
      OthersStayAssigned(config, h, h', peer, port);
    }
    if Injective(h.ports) { PortsStayApart(h, h', peer, setup, port, start, end); }
  }

  lemma AllottedAdds(ifs: map<PeerId, string>, ifs': map<PeerId, string>, id: PeerId)
    requires Allotted(ifs, ifs', id)
    ensures ifs'.Keys == ifs.Keys + {id} && forall p :: p in ifs ==> ifs'[p] == ifs[p]
  {
    hide LeastUnused;
  }

  /** The peak after one more name. */
  lemma PeakAfter(ifs: map<PeerId, string>, ifs': map<PeerId, string>, id: PeerId, bound: nat)
    requires Allotted(ifs, ifs', id) && WellNamed(ifs, bound)
    ensures |ifs'| >= |ifs| && Max(bound, |ifs'|) == if id in ifs then bound else Max(bound, |ifs| + 1)
  {
    AllottedAdds(ifs, ifs', id);
    assert |ifs'| == |ifs'.Keys| && |ifs| == |ifs.Keys|;
  }

  lemma OthersStayAssigned(config: seq<ConfigPeer>, h: Held, h': Held, peer: ConfigPeer, port: nat)
    requires Assigned(config, h.ifs, h.ports) && h.ifs.Keys <= h'.ifs.Keys && h'.ports == h.ports[peer.id := port]
    requires forall i :: 0 <= i < |config| ==> config[i].id != peer.id
    ensures Assigned(config, h'.ifs, h'.ports)
  {
  }

  lemma PortsStayApart(h: Held, h': Held, peer: ConfigPeer, setup: Setup, port: nat, start: nat, end: nat)
    requires Stepped(h, h', peer, setup, port, start, end) && Injective(h.ports)
    ensures peer.listenPort == 0 || (peer.id in h.ports && h.ports[peer.id] == peer.listenPort) ==>
              Injective(h'.ports) && Keeps(h.ports, h'.ports)
  {
    forall p | p in h.ports ensures h.ports[p] in h.ports.Values {}
  }

  /** The interfaces built for the peers so far. */
  lemma BuiltNext(config: seq<ConfigPeer>, setups: seq<Setup>, peer: ConfigPeer, setup: Setup, ifs: map<PeerId, string>,
                  ifs': map<PeerId, string>)
    requires |setups| == |config| && KeyedIds(config) <= ifs.Keys
    requires ifs'.Keys == ifs.Keys + (if Keyed(peer) then {peer.id} else {})
    requires forall p :: p in ifs ==> ifs'[p] == ifs[p]
    ensures Built(config + [peer], setups + [setup], ifs')
            == Built(config, setups, ifs) + if Keyed(peer) && !setup.FailedBefore? then {ifs'[peer.id]} else {}
  {
    var c, t := config + [peer], setups + [setup];
    assert c[|config|] == peer && t[|config|] == setup;
    forall i | 0 <= i < |config| && Keyed(config[i])
      ensures c[i] == config[i] && t[i] == setups[i] && config[i].id in ifs
    {
      assert config[i].id in KeyedIds(config);
    }
    var all, old' := Built(c, t, ifs'), Built(config, setups, ifs);
    forall n | n in old' ensures n in all {
      var i :| 0 <= i < |config| && Keyed(config[i]) && config[i].id in ifs && !setups[i].FailedBefore?
               && ifs[config[i].id] == n;
      assert c[i] == config[i] && t[i] == setups[i];
    }
    forall n | n in all ensures n in old' || (Keyed(peer) && !setup.FailedBefore? && n == ifs'[peer.id]) {
      var i :| 0 <= i < |c| && Keyed(c[i]) && c[i].id in ifs' && !t[i].FailedBefore? && ifs'[c[i].id] == n;
      if i < |config| {
        assert c[i] == config[i] && t[i] == setups[i];
      }
    }
  }

  /** A turn of the first loop, on values: peers without a key are skipped. */
  ghost predicate Turned(h: Held, h': Held, peer: ConfigPeer, setup: Setup, port: nat, start: nat, end: nat) {
    if Keyed(peer) then Stepped(h, h', peer, setup, port, start, end) else h' == h
  }

  /** Where the first loop stands after these turns. */
  ghost predicate SoFar(config: seq<ConfigPeer>, setups: seq<Setup>, given: seq<nat>, h0: Held, h: Held, start: nat,
                        end: nat) {
    && |setups| == |config| && Progress(config, h0, h) && Legal(config, given, h0.ports, start, end)
    && h.ports == PortsAfter(config, given, h0.ports)
    && h.interfaces == h0.interfaces + Built(config, setups, h.ifs)
  }

  lemma StartOfPass(h: Held, start: nat, end: nat, bound: nat)
    requires WellNamed(h.ifs, bound)
    ensures SoFar([], [], [], h, h, start, end) && Max(bound, |h.ifs|) == bound
  {
    ProgressStart(h);
  }

  lemma SoFarKeeps(config: seq<ConfigPeer>, setups: seq<Setup>, given: seq<nat>, h0: Held, h: Held, start: nat,
                   end: nat)
    requires SoFar(config, setups, given, h0, h, start, end)
    ensures |given| == |config| == |setups| && h0.interfaces <= h.interfaces
    ensures forall p :: p in h0.ifs ==> p in h.ifs && h.ifs[p] == h0.ifs[p]
  {
    hide KeyedIds, UniqueIds, ServerAgrees, Injective, GapsFilled, InOrder, Assigned, Built, PortsAfter, Chosen;
  }

  /** While all was assigned before the pass a turn needs no new port. */
  lemma NextIsAssigned(config: seq<ConfigPeer>, setups: seq<Setup>, given: seq<nat>, i: nat, h0: Held, h: Held,
                       start: nat, end: nat)
    requires i < |config| && SoFar(config[..i], setups, given, h0, h, start, end)
    ensures Assigned(config, h0.ifs, h0.ports) && Keyed(config[i]) ==> config[i].id in h.ports
    ensures h0.interfaces <= h.interfaces && forall p :: p in h0.ifs ==> p in h.ifs && h.ifs[p] == h0.ifs[p]
  {
    hide KeyedIds, UniqueIds, ServerAgrees, Injective, GapsFilled, InOrder, Legal, PortsAfter, Built;
    if Assigned(config, h0.ifs, h0.ports) { AssignedAt(config, i, h0.ifs, h0.ports); }
  }

  /** What one turn adds to the whole pass. */
  lemma TurnMeans(config: seq<ConfigPeer>, setups: seq<Setup>, given: seq<nat>, h0: Held, h: Held, h': Held,
                  peer: ConfigPeer, setup: Setup, port: nat, start: nat, end: nat)
    requires SoFar(config, setups, given, h0, h, start, end) && Turned(h, h', peer, setup, port, start, end)
    ensures SoFar(config + [peer], setups + [setup], given + [port], h0, h', start, end)
  {
    hide KeyedIds, UniqueIds, ServerAgrees, Injective, GapsFilled, InOrder, Assigned, Built, Legal, PortsAfter, Chosen,
         Allotted;
    SoFarKeeps(config, setups, given, h0, h, start, end);
    if Keyed(peer) {
      ProgressNext(config, h0, h, peer, setup, h', port, start, end);
      AllottedAdds(h.ifs, h'.ifs, peer.id);
    } else {
      ProgressSkip(config, h0, h, peer);
    }
    TurnTaken(config, given, h0.ports, start, end, peer, port);
    BuiltNext(config, setups, peer, setup, h.ifs, h'.ifs);
  }

  lemma NextTurn(config: seq<ConfigPeer>, setups: seq<Setup>, given: seq<nat>, i: nat, h0: Held, h: Held, h': Held,
                 port: nat, start: nat, end: nat)
    requires i < |config| == |setups| && |given| == i
    requires SoFar(config[..i], setups[..i], given, h0, h, start, end)
    requires Turned(h, h', config[i], setups[i], port, start, end)
    ensures SoFar(config[..i + 1], setups[..i + 1], given + [port], h0, h', start, end)
    ensures Reported(config[..i + 1], setups[..i + 1], given + [port])
            == Reported(config[..i], setups[..i], given)
               + if Keyed(config[i]) && setups[i].Done? then [(config[i].id, port)] else []
  {
    hide SoFar, Turned, Reported;
    assert config[..i + 1] == config[..i] + [config[i]] && setups[..i + 1] == setups[..i] + [setups[i]];
    TurnMeans(config[..i], setups[..i], given, h0, h, h', config[i], setups[i], port, start, end);
    ReportedNext(config[..i], setups[..i], given, config[i], setups[i], port);
  }

  class Mappings {
    var peerToIf: map<PeerId, string>
    var peerToPort: map<PeerId, nat>
    var portRangeStart: nat
    var portRangeEnd: nat
    var loaded: bool
    var dirty: bool
    /** mappings.json, if it has been written, and the interfaces of this host. */
    var file: Option<map<PeerId, Mapping>>
    var interfaces: set<string>
    /** The largest number of peers ever mapped. */
    ghost var peak: nat

    /** A new process on a host where earlier ones may have left a file and interfaces. */
    constructor (file: Option<map<PeerId, Mapping>>, interfaces: set<string>, start: nat, end: nat, ghost peak: nat)
      requires 0 < start <= end && (file.Some? ==> WellNamed(LoadedIfs(file.value), peak))
      ensures Valid() && !loaded && !dirty && peerToIf == map[] && peerToPort == map[]
      ensures this.file == file && this.interfaces == interfaces && this.peak == peak
    {
      peerToIf, peerToPort, loaded, dirty := map[], map[], false, false;
      portRangeStart, portRangeEnd := start, end;
      this.file, this.interfaces, this.peak := file, interfaces, peak;
    }

    ghost predicate Valid()
      reads this`peerToIf, this`peerToPort, this`portRangeStart, this`portRangeEnd, this`file, this`peak
    {
      && WellNamed(peerToIf, peak)
      && peerToPort.Keys <= peerToIf.Keys && (forall p :: p in peerToPort ==> peerToPort[p] != 0)
      && 0 < portRangeStart <= portRangeEnd
      && (file.Some? ==> WellNamed(LoadedIfs(file.value), peak))
    }

    /** The file holds what is in memory. */
    ghost predicate InStep()
      reads this`peerToIf, this`peerToPort, this`file
    {
      if file.Some? then LoadedIfs(file.value) == peerToIf && LoadedPorts(file.value) == peerToPort
      else peerToIf == map[] && peerToPort == map[]
    }

    /** loadMappings at boot, on a host whose file and interfaces an earlier process may have left. */
    method LoadMappings()
      requires Valid() && !dirty && (!loaded ==> peerToIf == map[] && peerToPort == map[])
      modifies this`peerToIf, this`peerToPort, this`loaded
      ensures Valid() && loaded
      ensures !old(loaded) ==> InStep()
      ensures old(loaded) ==> peerToIf == old(peerToIf) && peerToPort == old(peerToPort)
    {
      if loaded { return; }
      loaded := true;
      if file.Some? {
        peerToIf, peerToPort := LoadedIfs(file.value), LoadedPorts(file.value);
      }
    }

    /** saveMappings. */
    method SaveMappings()
      requires Valid() && (!dirty ==> InStep())
      modifies this`file, this`dirty
      ensures Valid() && !dirty && InStep()
      ensures !old(dirty) ==> file == old(file)
    {
      if !dirty { return; }
      LoadAfterSave(peerToIf, peak, peerToPort);
      file := Some(Saved(peerToIf, peerToPort));
      dirty := false;
    }

    /** getIfName: a known peer keeps its interface; a new one gets the least unused index, which the search
        finds within as many steps as there are mapped peers. */
    method GetIfName(id: PeerId) returns (name: string)
      requires Valid()
      modifies this`peerToIf, this`dirty, this`peak
      ensures Valid() && id in peerToIf && name == peerToIf[id]
      ensures id in old(peerToIf) ==> peerToIf == old(peerToIf) && dirty == old(dirty) && peak == old(peak)
      ensures id !in old(peerToIf) ==> dirty && peak == Max(old(peak), |old(peerToIf)| + 1)
      ensures Allotted(old(peerToIf), peerToIf, id)
    {
      hide WellNamed, Names, IfName, IsIfName, IfIndex;
      if id in peerToIf { return peerToIf[id]; }
      AllIndexed(peerToIf, peak);
      var used := Indices(peerToIf);
      IndicesMean(peerToIf, peak);
      var idx := FirstGap(used);
      name := IfName(idx);
      Added(peerToIf, peak, id, idx);
      if file.Some? { Fewer(LoadedIfs(file.value), Max(peak, |peerToIf| + 1), peak, LoadedIfs(file.value)); }
      peak := Max(peak, |peerToIf| + 1);
      peerToIf := peerToIf[id := name];
      dirty := true;
    }

    /** getPort: up to 1000 random candidates; None is the exception when none of them was free. */
    method GetPort(id: PeerId) returns (port: Option<nat>)
      requires Valid() && id in peerToIf
      modifies this`peerToPort, this`dirty
      ensures Valid()
      ensures id in old(peerToPort) ==>
              port == Some(old(peerToPort)[id]) && peerToPort == old(peerToPort) && dirty == old(dirty)
      ensures id !in old(peerToPort) && port.Some? ==>
                && dirty && peerToPort == old(peerToPort)[id := port.value]
                && portRangeStart <= port.value <= portRangeEnd && port.value !in old(peerToPort).Values
      ensures port.None? ==> peerToPort == old(peerToPort) && dirty == old(dirty)
    {
      if id in peerToPort { return Some(peerToPort[id]); }
      var usedPorts := peerToPort.Values;
      var i := 0;
      while i < 1000
        invariant 0 <= i <= 1000
      {
        var candidate: nat :| portRangeStart <= candidate <= portRangeEnd;
        if candidate !in usedPorts {
          peerToPort := peerToPort[id := candidate];
          dirty := true;
          return Some(candidate);
        }
        i := i + 1;
      }
      return None;
    }

    method RemoveOne(p: PeerId)
      requires Valid() && p in peerToIf
      modifies this`peerToIf, this`peerToPort, this`dirty, this`interfaces
      ensures Valid() && dirty && peerToIf == old(peerToIf) - {p} && peerToPort == old(peerToPort) - {p}
      ensures interfaces == old(interfaces) - {old(peerToIf)[p]}
    {
      hide WellNamed, LoadedIfs;
      Fewer(peerToIf, peak, peak, peerToIf - {p});
      interfaces := interfaces - {peerToIf[p]};
      peerToIf, peerToPort, dirty := peerToIf - {p}, peerToPort - {p}, true;
    }

    /** removeInterface for every mapped peer the config no longer has. */
    method RemoveGone(desired: set<PeerId>)
      requires Valid() && (!dirty ==> InStep())
      modifies this`peerToIf, this`peerToPort, this`dirty, this`interfaces
      ensures Valid() && (!dirty ==> InStep())
      ensures peerToIf == Restrict(old(peerToIf), desired) && peerToPort == Restrict(old(peerToPort), desired)
      ensures interfaces == old(interfaces) - Gone(old(peerToIf), desired)
      ensures old(peerToIf.Keys) <= desired ==> dirty == old(dirty)
    {
      hide WellNamed, InStep, LoadedIfs, Gone, Restrict;
      var todo := peerToIf.Keys;
      AllKept(peerToIf, peerToPort, desired + todo);
      while todo != {}
        invariant Valid() && (!dirty ==> InStep()) && todo <= old(peerToIf.Keys)
        invariant peerToIf == Restrict(old(peerToIf), desired + todo)
        invariant peerToPort == Restrict(old(peerToPort), desired + todo)
        invariant interfaces == old(interfaces) - Gone(old(peerToIf), desired + todo)
        invariant old(peerToIf.Keys) <= desired ==> dirty == old(dirty)
        decreases todo
      {
        var p :| p in todo;
        OneGone(old(peerToIf), old(peerToPort), desired + todo, p);
        if p !in desired {
          assert desired + todo - {p} == desired + (todo - {p});
          RemoveOne(p);
        } else {
          assert desired + (todo - {p}) == desired + todo;
        }
        todo := todo - {p};
      }
      assert desired + todo == desired;
    }

    /** The port a peer is to listen on, remembered; None if a new one was needed and none could be found. */
    method AssignPort(peer: ConfigPeer) returns (port: Option<nat>)
      requires Valid() && peer.id in peerToIf
      modifies this`peerToPort, this`dirty
      ensures Valid()
      ensures peerToPort == if port.Some? then old(peerToPort)[peer.id := port.value] else old(peerToPort)
      ensures peer.listenPort > 0 ==> port == Some(peer.listenPort)
      ensures peer.listenPort == 0 && peer.id in old(peerToPort) ==> port == Some(old(peerToPort)[peer.id])
      ensures port.Some? ==> Chosen(peer, old(peerToPort), port.value, portRangeStart, portRangeEnd)
      ensures if peerToPort == old(peerToPort) then dirty == old(dirty) else dirty
    {
      hide WellNamed, LoadedIfs;
      if peer.listenPort > 0 {
        port := Some(peer.listenPort);
      } else {
        port := GetPort(peer.id);
        if port.None? { return; }
      }
      if peer.id !in peerToPort || peerToPort[peer.id] != port.value {
        peerToPort, dirty := peerToPort[peer.id := port.value], true;
      }
    }

    /** The body of reconcile's first loop for a peer with a key. */
    method Configure(peer: ConfigPeer, setup: Setup) returns (port: Option<nat>)
      requires Valid() && (!dirty ==> InStep())
      modifies this`peerToIf, this`peerToPort, this`dirty, this`peak, this`interfaces
      ensures Valid() && (!dirty ==> InStep())
      ensures Allotted(old(peerToIf), peerToIf, peer.id) && peak == Max(old(peak), |peerToIf|)
      ensures peerToPort == if port.Some? then old(peerToPort)[peer.id := port.value] else old(peerToPort)
      ensures interfaces == if port.None? || setup.FailedBefore?
              then old(interfaces) else old(interfaces) + {peerToIf[peer.id]}
      ensures peer.listenPort > 0 ==> port == Some(peer.listenPort)
      ensures peer.listenPort == 0 && peer.id in old(peerToPort) ==> port == Some(old(peerToPort)[peer.id])
      ensures port.Some? ==> Chosen(peer, old(peerToPort), port.value, portRangeStart, portRangeEnd)
      ensures peer.id in old(peerToIf) && peerToPort == old(peerToPort) ==> dirty == old(dirty)
    {
      hide WellNamed, Names, IfName, LeastUnused, LoadedIfs, LoadedPorts;
      var name := GetIfName(peer.id);
      PeakAfter(old(peerToIf), peerToIf, peer.id, old(peak));
      port := AssignPort(peer);
      if port.Some? && !setup.FailedBefore? { interfaces := interfaces + {name}; }
    }

    ghost function Now(): Held
      reads this`peerToIf, this`peerToPort, this`dirty, this`interfaces
    {
      Held(peerToIf, peerToPort, dirty, interfaces)
    }

    /** One turn of reconcile's first loop; None if it throws. */
    method Turn(peer: ConfigPeer, setup: Setup) returns (port: Option<nat>)
      requires Valid() && (!dirty ==> InStep())
      modifies this`peerToIf, this`peerToPort, this`dirty, this`peak, this`interfaces
      ensures Valid() && (!dirty ==> InStep())
      ensures old(peak) == Max(old(peak), |old(peerToIf)|) && peak == Max(old(peak), |peerToIf|)
      ensures |peerToIf| >= |old(peerToIf)| && interfaces >= old(interfaces)
      ensures forall p :: p in old(peerToIf) ==> p in peerToIf && peerToIf[p] == old(peerToIf)[p]
      ensures port.Some? ==> Turned(old(Now()), Now(), peer, setup, port.value, portRangeStart, portRangeEnd)
      ensures port.None? ==> Keyed(peer) && peer.id !in old(peerToPort)
    {
      hide WellNamed, LoadedIfs, LoadedPorts, InStep, Chosen, Allotted;
      StartOfPass(Now(), portRangeStart, portRangeEnd, peak);
      if !Keyed(peer) { return Some(0); }
      port := Configure(peer, setup);
      AllottedAdds(old(peerToIf), peerToIf, peer.id);
      PeakAfter(old(peerToIf), peerToIf, peer.id, old(peak));
    }

    lemma Begins()
      requires Valid()
      ensures SoFar([], [], [], Now(), Now(), portRangeStart, portRangeEnd) && Max(peak, |peerToIf|) == peak
    {
      StartOfPass(Now(), portRangeStart, portRangeEnd, peak);
    }

    /** The first loop of reconcile: false when it throws for want of a port. `given` is what each turn settled
        on, `reported` the list it returns. */
    method ConfigureAll(config: seq<ConfigPeer>, setups: seq<Setup>)
      returns (ok: bool, reported: seq<(PeerId, nat)>, ghost given: seq<nat>)
      requires Valid() && (!dirty ==> InStep()) && |setups| == |config|
      modifies this`peerToIf, this`peerToPort, this`dirty, this`peak, this`interfaces
      ensures Valid() && (!dirty ==> InStep()) && peak == Max(old(peak), |peerToIf|)
      ensures ok ==> SoFar(config, setups, given, old(Now()), Now(), portRangeStart, portRangeEnd)
      ensures ok ==> |given| == |config| && reported == Reported(config, setups, given)
      ensures old(interfaces) <= interfaces
      ensures forall p :: p in old(peerToIf) ==> p in peerToIf && peerToIf[p] == old(peerToIf)[p]
      ensures Assigned(config, old(peerToIf), old(peerToPort)) ==> ok
    {
      hide WellNamed, Valid, InStep, Assigned, Reported, SoFar, Turned, Keyed;
      ghost var h0 := Now();
      Begins();
      assert config[..0] == [] && setups[..0] == [];
      var i := 0;
      reported, given := [], [];
      ReportedNone();
      while i < |config|
        invariant 0 <= i <= |config| == |setups| && |given| == i && Valid() && (!dirty ==> InStep())
        invariant SoFar(config[..i], setups[..i], given, h0, Now(), portRangeStart, portRangeEnd)
        invariant peak == Max(old(peak), |peerToIf|) && |peerToIf| >= |h0.ifs|
        invariant reported == Reported(config[..i], setups[..i], given)
      {
        ghost var h := Now();
        NextIsAssigned(config, setups[..i], given, i, h0, h, portRangeStart, portRangeEnd);
        var port := Turn(config[i], setups[i]);
        if port.None? {
          return false, [], [];
        }
        NextTurn(config, setups, given, i, h0, h, Now(), port.value, portRangeStart, portRangeEnd);
        if Keyed(config[i]) && setups[i].Done? { reported := reported + [(config[i].id, port.value)]; }
        given := given + [port.value];
        i := i + 1;
      }
      assert config[..i] == config && setups[..i] == setups;
      SoFarKeeps(config, setups, given, h0, Now(), portRangeStart, portRangeEnd);
      return true, reported, given;
    }

    /** reconcile: one poll's config against this host. False when a port could not be found; then nothing has
        been removed and nothing saved. Otherwise exactly the peers with a key, and mapped ones that the config
        still has, are mapped, survivors under their old interface, new ones in the order of the config and each
        under an index below which none was free; no interface built in the pass is removed in it; the ports are
        what the turns settled on, `given`, and the report lists those of the interfaces set up; the file is in
        step; and where all was assigned already, nothing changes. */
    method Reconcile(config: seq<ConfigPeer>, setups: seq<Setup>)
      returns (ok: bool, reported: seq<(PeerId, nat)>, ghost given: seq<nat>)
      requires Valid() && (!dirty ==> InStep()) && |setups| == |config|
      modifies this`peerToIf, this`peerToPort, this`dirty, this`peak, this`interfaces, this`file
      ensures Valid() && (!dirty ==> InStep())
      ensures forall p :: p in old(peerToIf) && p in peerToIf ==> peerToIf[p] == old(peerToIf)[p]
      ensures !ok ==> file == old(file) && old(interfaces) <= interfaces && old(peerToIf.Keys) <= peerToIf.Keys
      ensures peak == Max(old(peak), if ok then |old(peerToIf.Keys) + KeyedIds(config)| else |peerToIf|)
      ensures ok ==> GapsFilled(old(peerToIf), peerToIf)
      ensures ok && UniqueIds(config) ==> InOrder(config, old(peerToIf), peerToIf)
      ensures ok ==> Legal(config, given, old(peerToPort), portRangeStart, portRangeEnd)
      ensures ok ==> peerToPort == Restrict(PortsAfter(config, given, old(peerToPort)), Desired(config))
      ensures ok ==> reported == Reported(config, setups, given)
      ensures ok ==> !dirty && InStep() && peerToIf.Keys == old(peerToIf.Keys) * Desired(config) + KeyedIds(config)
      ensures ok && UniqueIds(config) ==> Assigned(config, peerToIf, peerToPort)
      ensures ok ==>
                var built, gone := Built(config, setups, peerToIf), Gone(old(peerToIf), Desired(config));
                built !! gone && interfaces == old(interfaces) - gone + built
      ensures ok && Injective(old(peerToPort)) && ServerAgrees(config, old(peerToPort)) ==> Injective(peerToPort)
      ensures Assigned(config, old(peerToIf), old(peerToPort)) ==> ok
      ensures Assigned(config, old(peerToIf), old(peerToPort)) && old(peerToIf.Keys) <= Desired(config) ==>
                peerToIf == old(peerToIf) && peerToPort == old(peerToPort) && (!old(dirty) ==> file == old(file))
    {
      hide WellNamed, LoadedIfs, LoadedPorts, InStep, KeyedIds, Desired, Assigned, UniqueIds, ServerAgrees, Injective,
           Built, Gone, Restrict, Progress, Legal, PortsAfter, Reported, GapsFilled, InOrder;
      ghost var h0 := Now();
      ok, reported, given := ConfigureAll(config, setups);
      if !ok { return; }
      ghost var h := Now();
      ghost var bound := peak;
      RemoveGone(Desired(config));
      PassMeans(config, setups, h0, h, bound);
      SaveMappings();
    }

    /** Two polls that bring the same config: the second succeeds and changes no mapping, no port and not the
        file, and no interface either if all could be set up the first time. `mid`, `written` and
        `top` are what the first leaves. */
    method ReconcileTwice(config: seq<ConfigPeer>, first: seq<Setup>, second: seq<Setup>)
      returns (ok1: bool, ok2: bool, ghost mid: Held, ghost written: Option<map<PeerId, Mapping>>, ghost top: nat)
      requires Valid() && (!dirty ==> InStep()) && |first| == |config| == |second| && UniqueIds(config)
      modifies this`peerToIf, this`peerToPort, this`dirty, this`peak, this`interfaces, this`file
      ensures Valid()
      ensures ok1 ==> ok2 && peerToIf == mid.ifs && peerToPort == mid.ports && file == written && peak == top
      ensures ok1 && (forall i :: 0 <= i < |first| ==> first[i].Done?) ==> interfaces == mid.interfaces
    {
      hide WellNamed, LoadedIfs, LoadedPorts, InStep, KeyedIds, Desired, Assigned, UniqueIds, ServerAgrees, Injective,
           Built, Gone, Legal, PortsAfter, Reported, GapsFilled, InOrder;
      ghost var g1, g2;
      var reported1, reported2;
      ok1, reported1, g1 := Reconcile(config, first);
      mid, written, top := Now(), file, peak;
      KeyedAreDesired(config);
      AllBuilt(config, first, second, peerToIf);
      SameKeys(config, old(peerToIf), peerToIf, peak);
      ok2, reported2, g2 := Reconcile(config, second);
    }
  }

  lemma KeyedAreDesired(config: seq<ConfigPeer>)
    ensures KeyedIds(config) <= Desired(config)
  {
  }

  /** If all went well once, a second time builds nothing new; and with only desired peers mapped none is gone. */
  lemma AllBuilt(config: seq<ConfigPeer>, first: seq<Setup>, second: seq<Setup>, ifs: map<PeerId, string>)
    requires |first| == |config| == |second|
    ensures (forall i :: 0 <= i < |first| ==> first[i].Done?) ==>
            Built(config, second, ifs) <= Built(config, first, ifs)
    ensures ifs.Keys <= Desired(config) ==> Gone(ifs, Desired(config)) == {}
  {
  }

  /** A second pass maps no more peers than the first. */
  lemma SameKeys(config: seq<ConfigPeer>, ifs0: map<PeerId, string>, ifs: map<PeerId, string>, bound: nat)
    requires WellNamed(ifs, bound)
    ensures ifs.Keys == ifs0.Keys * Desired(config) + KeyedIds(config) ==>
            Max(bound, |ifs.Keys + KeyedIds(config)|) == bound
  {
    if ifs.Keys == ifs0.Keys * Desired(config) + KeyedIds(config) { assert ifs.Keys + KeyedIds(config) == ifs.Keys; }
  }

  /** The names new in a pass stay when peers the config no longer has are removed. */
  lemma NewNamesKept(config: seq<ConfigPeer>, h0: Held, h: Held)
    requires Progress(config, h0, h)
    ensures var ifs := Restrict(h.ifs, Desired(config));
            GapsFilled(h0.ifs, ifs) && (UniqueIds(config) ==> InOrder(config, h0.ifs, ifs))
  {
    hide Assigned, ServerAgrees, Injective, UniqueIds, IfName, Sooner;
    KeyedAreDesired(config);
    var ifs := Restrict(h.ifs, Desired(config));
    forall p | p in ifs && p !in h0.ifs ensures FillsGap(h0.ifs, ifs, ifs[p]) {
      assert FillsGap(h0.ifs, h.ifs, h.ifs[p]);
      forall j: nat | Names(h.ifs, j) ensures Names(h0.ifs, j) || Names(ifs, j) {
        var q :| q in h.ifs && h.ifs[q] == IfName(j);
        assert q in h0.ifs || q in ifs;
      }
    }
  }

  lemma KeptNames(config: seq<ConfigPeer>, h0: Held, h: Held)
    requires Progress(config, h0, h)
    ensures var desired := Desired(config);
            var ifs := Restrict(h.ifs, desired);
            && ifs.Keys == h0.ifs.Keys * desired + KeyedIds(config)
            && (forall p :: p in h0.ifs && p in ifs ==> ifs[p] == h0.ifs[p])
            && Gone(h.ifs, desired) == Gone(h0.ifs, desired)
  {
    hide KeyedIds, Desired, Assigned, UniqueIds, ServerAgrees, Injective;
    KeyedAreDesired(config);
    var desired := Desired(config);
    forall p | p in h.ifs && p !in desired ensures p in h0.ifs && h.ifs[p] == h0.ifs[p] {}
  }

  /** What was built belongs to peers the config has, and so, names being distinct, is not removed. */
  lemma BuiltAreKept(config: seq<ConfigPeer>, setups: seq<Setup>, ifs: map<PeerId, string>, bound: nat)
    requires |setups| == |config| && WellNamed(ifs, bound)
    ensures Built(config, setups, Restrict(ifs, Desired(config))) == Built(config, setups, ifs)
    ensures Built(config, setups, ifs) !! Gone(ifs, Desired(config))
  {
    var desired := Desired(config);
    forall i | 0 <= i < |config| ensures config[i].id in desired {}
    forall n | n in Built(config, setups, ifs) ensures n !in Gone(ifs, desired) {
      var i :| 0 <= i < |config| && Keyed(config[i]) && config[i].id in ifs && !setups[i].FailedBefore?
               && ifs[config[i].id] == n;
      forall p | p in ifs && ifs[p] == n ensures p in desired {
        assert p == config[i].id;
      }
    }
  }

  lemma AssignedKept(config: seq<ConfigPeer>, ifs: map<PeerId, string>, ports: map<PeerId, nat>)
    requires Assigned(config, ifs, ports)
    ensures Assigned(config, Restrict(ifs, Desired(config)), Restrict(ports, Desired(config)))
  {
  }

  /** What the two loops of a pass leave, put together. */
  lemma PassMeans(config: seq<ConfigPeer>, setups: seq<Setup>, h0: Held, h: Held, bound: nat)
    requires |setups| == |config| && Progress(config, h0, h) && WellNamed(h.ifs, bound) && h0.ports.Keys <= h0.ifs.Keys
    ensures var desired := Desired(config);
            var ifs, ports := Restrict(h.ifs, desired), Restrict(h.ports, desired);
            && ifs.Keys == h0.ifs.Keys * desired + KeyedIds(config)
            && (forall p :: p in h0.ifs && p in ifs ==> ifs[p] == h0.ifs[p])
            && Gone(h.ifs, desired) == Gone(h0.ifs, desired)
            && Built(config, setups, ifs) == Built(config, setups, h.ifs)
            && Built(config, setups, ifs) !! Gone(h0.ifs, desired)
            && (UniqueIds(config) ==> Assigned(config, ifs, ports))
            && (Injective(h0.ports) && ServerAgrees(config, h0.ports) ==> Injective(ports))
            && GapsFilled(h0.ifs, ifs) && (UniqueIds(config) ==> InOrder(config, h0.ifs, ifs))
            && |h.ifs| == |h0.ifs.Keys + KeyedIds(config)|
            && (Assigned(config, h0.ifs, h0.ports) && h0.ifs.Keys <= desired ==>
                  ifs == h0.ifs && ports == h0.ports && h.dirty == h0.dirty && h.ifs.Keys <= desired)
  {
    hide KeyedIds, Desired, Assigned, UniqueIds, ServerAgrees, Built, Gone, WellNamed, GapsFilled, InOrder;
    NewNamesKept(config, h0, h);
    KeptNames(config, h0, h);
    BuiltAreKept(config, setups, h.ifs, bound);
    if UniqueIds(config) { AssignedKept(config, h.ifs, h.ports); }
  }
}
