/** The reaper of packages/server/src/reaper.ts: it removes peers not seen for their time to live. */
module Reaper {
  import opened Common
  import opened PairKeys
  import opened PairMachine
  import opened Negotiator

  predicate Expired(row: PeerRow, now: nat) {
    row.ttlSeconds > 0 && now - row.lastSeen > row.ttlSeconds * 1000
  }

  /** The notices due: every survivor hears once of each peer removed from its own network. */
  function Due(before: map<PeerId, PeerRow>, after: map<PeerId, PeerRow>, connected: set<PeerId>,
               gone: seq<PeerId>): set<Notice> {
    set to, x | to in after && x in gone && x in before && before[x].network == after[to].network
      :: Notice(to, x, to in connected)
  }

  ghost predicate Distinct(xs: seq<PeerId>) {
    forall i, j :: 0 <= i < j < |xs| ==> xs[i] != xs[j]
  }

  lemma BagOfUnion(a: set<Notice>, b: set<Notice>)
    requires a !! b
    ensures multiset(a + b) == multiset(a) + multiset(b)
  {
  }

  // ----- the query, and the removal of one peer's memory -----

  /** SELECT the expired rows, in some order. */
  method SelectExpired(peers: map<PeerId, PeerRow>, now: nat) returns (expired: seq<PeerId>)
    ensures Distinct(expired) && forall i, j :: 0 <= i < j < |expired| ==> expired[i] != expired[j]
    ensures forall x :: x in expired <==>
              x in peers && peers[x].ttlSeconds > 0 && now > peers[x].lastSeen + 1000 * peers[x].ttlSeconds
  {
    expired := [];
    var todo := peers.Keys;
    while todo != {}
      invariant todo <= peers.Keys && Distinct(expired)
      invariant forall x :: x in expired <==> x in peers && x !in todo && Expired(peers[x], now)
      decreases todo
    {
      var x :| x in todo;
      if Expired(peers[x], now) { expired := expired + [x]; }
      todo := todo - {x};
    }
  }

  lemma PurgeNext(c: Config, s: PairState, e: Env, gone: seq<PeerId>, i: nat, p: Pair)
    requires i < |gone|
    ensures var before := RunFrom(c, s, Stamp(e, PurgesFor(gone[..i], p)));
            RunFrom(c, s, Stamp(e, PurgesFor(gone[..i + 1], p)))
            == if p.Has(gone[i]) then AbortFor(before, SideOf(p, gone[i]), PeerRemoved).(health := None) else before
  {
    hide RunFrom, AbortFor;
    assert gone[..i + 1][..|gone[..i + 1]| - 1] == gone[..i];
    var before := PurgesFor(gone[..i], p);
    var ev := Purge(SideOf(p, gone[i]));
    RunStampAppend(c, s, e, before, [ev]);
    RunStampAppend(c, s, e, before, []);
    RunStampOne(c, RunFrom(c, s, Stamp(e, before)), e, ev);
  }

  /** Deleting rows clears the link rows of the pairs it touches, whatever the environment. */
  lemma {:induction false} CascadesMean(c: Config, s: PairState, e: Env, gone: seq<PeerId>, p: Pair)
    ensures RunFrom(c, s, Stamp(e, CascadesFor(gone, p)))
            == if p.lo in gone || p.hi in gone then s.(rowLo := None, rowHi := None) else s
  {
    if gone == [] {
      NothingGone(c, s, e, gone, p);
    } else {
      hide RunFrom;
      var before := gone[..|gone| - 1];
      assert gone == before + [gone[|gone| - 1]];
      CascadesMean(c, s, e, before, p);
      RunStampAppend(c, s, e, CascadesFor(before, p), [Cascade]);
      RunStampAppend(c, s, e, CascadesFor(before, p), []);
      RunStampOne(c, RunFrom(c, s, Stamp(e, CascadesFor(before, p))), e, Cascade);
    }
  }

  lemma NothingGone(c: Config, s: PairState, e: Env, gone: seq<PeerId>, p: Pair)
    ensures RunFrom(c, s, Stamp(e, [])) == s
    ensures RunFrom(c, s, Stamp(e, PurgesFor(gone[..0], p))) == s
    ensures RunFrom(c, s, Stamp(e, CascadesFor(gone[..0], p))) == s
  {
  }

  /** Abort negotiations and drop the health records of every expired peer. */
  method PurgeMemory(s: Server, gone: seq<PeerId>, ghost now: nat)
    requires s.Inv()
    modifies s`activeNegotiations, s`timers, s`outbox, s`pairHealthMap
    ensures s.Inv() && fresh(s.pairHealthMap.Values - old(s.pairHealthMap.Values))
    ensures forall p: Pair, x :: x in gone && p.Has(x) ==> p !in s.activeNegotiations && p !in s.pairHealthMap
    ensures forall q: Pair {:trigger s.Slice(q)} :: q.Proper() ==>
              s.Slice(q) == RunFrom(s.config, old(s.Slice(q)), Stamp(s.EnvAt(now, {}, q), PurgesFor(gone, q)))
  {
    hide LogOf, Less, Server.Slice, Server.Core, RunFrom, PurgesFor, Stamp, AbortFor;
    var i := 0;
    forall q: Pair ensures RunFrom(s.config, s.Slice(q), Stamp(s.EnvAt(now, {}, q), PurgesFor(gone[..0], q)))
        == s.Slice(q) {
      NothingGone(s.config, s.Slice(q), s.EnvAt(now, {}, q), gone, q);
    }
    while i < |gone|
      invariant 0 <= i <= |gone| && s.Inv() && s.pairHealthMap.Values <= old(s.pairHealthMap.Values)
      invariant forall p: Pair, k :: 0 <= k < i && p.Has(gone[k]) ==>
                p !in s.activeNegotiations && p !in s.pairHealthMap
      invariant forall q: Pair {:trigger s.Slice(q)} :: q.Proper() ==>
                  s.Slice(q) == RunFrom(s.config, old(s.Slice(q)), Stamp(s.EnvAt(now, {}, q), PurgesFor(gone[..i], q)))
    {
      s.AbortPeerNegotiations(gone[i], PeerRemoved);
      s.CleanupPeerHealth(gone[i]);
      forall q: Pair | q.Proper()
        ensures s.Slice(q) == RunFrom(s.config, old(s.Slice(q)),
                                      Stamp(s.EnvAt(now, {}, q), PurgesFor(gone[..i + 1], q)))
      {
        PurgeNext(s.config, old(s.Slice(q)), s.EnvAt(now, {}, q), gone, i, q);
      }
      i := i + 1;
    }
    assert gone[..i] == gone;
  }

  /** The transaction that deletes the expired rows. */
  method DeleteRows(s: Server, gone: seq<PeerId>)
    requires s.Keyed()
    modifies s`peers, s`links, s`ports
    ensures s.Keyed() && s.peers == map x | x in old(s.peers) && x !in gone :: old(s.peers)[x]
    ensures s.links.Keys == set k | k in old(s.links) && k.0 !in gone && k.1 !in gone
    ensures s.ports.Keys == set k | k in old(s.ports) && k.0 !in gone && k.1 !in gone
    ensures forall q: Pair {:trigger s.Slice(q)} ::
              s.Slice(q) == if q.lo in gone || q.hi in gone
                  then old(s.Slice(q)).(rowLo := None, rowHi := None) else old(s.Slice(q))
  {
    hide LogOf, Less, Server.Slice;
    var i := 0;
    while i < |gone|
      invariant 0 <= i <= |gone| && s.Keyed()
      invariant s.peers == map x | x in old(s.peers) && x !in gone[..i] :: old(s.peers)[x]
      invariant s.links.Keys == set k | k in old(s.links) && k.0 !in gone[..i] && k.1 !in gone[..i]
      invariant s.ports.Keys == set k | k in old(s.ports) && k.0 !in gone[..i] && k.1 !in gone[..i]
      invariant forall q: Pair {:trigger s.Slice(q)} ::
                  s.Slice(q) == if q.lo in gone[..i] || q.hi in gone[..i]
                      then old(s.Slice(q)).(rowLo := None, rowHi := None)
                                else old(s.Slice(q))
    {
      s.DeleteRow(gone[i]);
      assert gone[..i + 1] == gone[..i] + [gone[i]];
      i := i + 1;
    }
    assert gone[..i] == gone;
  }

  // ----- the notices -----

  function NoticesTo(to: set<PeerId>, x: PeerId, connected: set<PeerId>): set<Notice> {
    set y | y in to :: Notice(y, x, y in connected)
  }

  /** One removed peer: every remaining peer of the network gets one push. */
  method Announce(s: Server, x: PeerId, remaining: set<PeerId>)
    modifies s`notices
    ensures multiset(s.notices) == multiset(old(s.notices)) + multiset(NoticesTo(remaining, x, s.connections.Keys))
  {
    var todo := remaining;
    assert NoticesTo(remaining - todo, x, s.connections.Keys) == {};
    while todo != {}
      invariant todo <= remaining
      invariant multiset(s.notices) == multiset(old(s.notices))
                + multiset(NoticesTo(remaining - todo, x, s.connections.Keys))
      decreases todo
    {
      var y :| y in todo;
      var n := Notice(y, x, y in s.connections);
      ghost var before := NoticesTo(remaining - todo, x, s.connections.Keys);
      s.notices := s.notices + [n];
      todo := todo - {y};
      assert remaining - todo == (remaining - (todo + {y})) + {y};
      assert NoticesTo(remaining - todo, x, s.connections.Keys) == before + {n};
      BagOfUnion(before, {n});
    }
    assert remaining - todo == remaining;
  }

  /** All notices about one network's removed peers. */
  function NoticesAbout(to: set<PeerId>, gone: seq<PeerId>, connected: set<PeerId>): set<Notice> {
    set y, x | y in to && x in gone :: Notice(y, x, y in connected)
  }

  lemma NextGone(to: set<PeerId>, gone: seq<PeerId>, i: nat, connected: set<PeerId>)
    requires Distinct(gone) && i < |gone|
    ensures multiset(NoticesAbout(to, gone[..i + 1], connected))
            == multiset(NoticesAbout(to, gone[..i], connected)) + multiset(NoticesTo(to, gone[i], connected))
  {
    var before := NoticesAbout(to, gone[..i], connected);
    var more := NoticesTo(to, gone[i], connected);
    assert gone[..i + 1] == gone[..i] + [gone[i]];
    var all := NoticesAbout(to, gone[..i + 1], connected);
    forall n ensures n in all <==> n in before + more {
      assert n.gone in gone[..i + 1] <==> n.gone in gone[..i] || n.gone == gone[i];
    }
    BagOfUnion(before, more);
  }

  method AnnounceAll(s: Server, gone: seq<PeerId>, remaining: set<PeerId>)
    requires Distinct(gone)
    modifies s`notices
    ensures multiset(s.notices) == multiset(old(s.notices))
            + multiset(NoticesAbout(remaining, gone, s.connections.Keys))
  {
    var i := 0;
    assert NoticesAbout(remaining, gone[..0], s.connections.Keys) == {};
    while i < |gone|
      invariant 0 <= i <= |gone|
      invariant multiset(s.notices) == multiset(old(s.notices))
                + multiset(NoticesAbout(remaining, gone[..i], s.connections.Keys))
    {
      Announce(s, gone[i], remaining);
      NextGone(remaining, gone, i, s.connections.Keys);
      i := i + 1;
    }
    assert gone[..i] == gone;
  }

  /** The grouping lists the removed peers of each network, once each. */
  ghost predicate Grouped(before: map<PeerId, PeerRow>, gone: seq<PeerId>, byNetwork: map<string, seq<PeerId>>) {
    && (forall x :: x in gone ==> x in before && before[x].network in byNetwork)
    && (forall n :: n in byNetwork ==> Distinct(byNetwork[n]))
    && (forall n, x :: n in byNetwork ==> (x in byNetwork[n] <==> x in gone && before[x].network == n))
  }

  /** Group the removed peers by network. */
  method GroupByNetwork(peers: map<PeerId, PeerRow>, gone: seq<PeerId>) returns (byNetwork: map<string, seq<PeerId>>)
    requires Distinct(gone) && forall x :: x in gone ==> x in peers
    ensures Grouped(peers, gone, byNetwork)
  {
    byNetwork := map[];
    var i := 0;
    while i < |gone|
      invariant 0 <= i <= |gone| && Grouped(peers, gone[..i], byNetwork)
    {
      var n := peers[gone[i]].network;
      var list := if n in byNetwork then byNetwork[n] else [];
      byNetwork := byNetwork[n := list + [gone[i]]];
      assert gone[..i + 1] == gone[..i] + [gone[i]];
      i := i + 1;
    }
    assert gone[..i] == gone;
  }

  /** The notices for the networks in ns. */
  function NoticesIn(ns: set<string>, before: map<PeerId, PeerRow>, after: map<PeerId, PeerRow>, connected: set<PeerId>,
                     gone: seq<PeerId>): set<Notice> {
    set to, x | to in after && x in gone && x in before && before[x].network == after[to].network
                && after[to].network in ns
      :: Notice(to, x, to in connected)
  }

  method NotifyNetwork(s: Server, before: map<PeerId, PeerRow>, gone: seq<PeerId>, byNetwork: map<string, seq<PeerId>>,
                       n: string)
    requires Grouped(before, gone, byNetwork) && n in byNetwork
    modifies s`notices
    ensures multiset(s.notices) == multiset(old(s.notices))
            + multiset(NoticesIn({n}, before, s.peers, s.connections.Keys, gone))
  {
    hide NoticesIn, NoticesAbout;
    var remaining := set y | y in s.peers && s.peers[y].network == n;
    AnnounceAll(s, byNetwork[n], remaining);
    OneNetwork(n, before, s.peers, s.connections.Keys, gone, byNetwork[n], remaining);
  }

  lemma OneNetwork(n: string, before: map<PeerId, PeerRow>, after: map<PeerId, PeerRow>, connected: set<PeerId>,
                   gone: seq<PeerId>, list: seq<PeerId>, remaining: set<PeerId>)
    requires forall x :: x in gone ==> x in before
    requires forall x :: x in list <==> x in gone && before[x].network == n
    requires remaining == set y | y in after && after[y].network == n
    ensures NoticesIn({n}, before, after, connected, gone) == NoticesAbout(remaining, list, connected)
  {
  }

  method Notify(s: Server, before: map<PeerId, PeerRow>, gone: seq<PeerId>, byNetwork: map<string, seq<PeerId>>)
    requires Grouped(before, gone, byNetwork)
    modifies s`notices
    ensures multiset(s.notices) == multiset(old(s.notices)) + multiset(Due(before, s.peers, s.connections.Keys, gone))
  {
    hide Due, NoticesIn, Grouped;
    var todo := byNetwork.Keys;
    ghost var done: set<string> := {};
    NoNetworks(before, s.peers, s.connections.Keys, gone);
    while todo != {}
      invariant done + todo == byNetwork.Keys && done !! todo
      invariant multiset(s.notices) == multiset(old(s.notices))
                + multiset(NoticesIn(done, before, s.peers, s.connections.Keys, gone))
      decreases todo
    {
      var n :| n in todo;
      NotifyNetwork(s, before, gone, byNetwork, n);
      NextNetwork(done, n, before, s.peers, s.connections.Keys, gone);
      todo, done := todo - {n}, done + {n};
    }
    AllNetworks(byNetwork, before, s.peers, s.connections.Keys, gone);
  }

  lemma NoNetworks(before: map<PeerId, PeerRow>, after: map<PeerId, PeerRow>, connected: set<PeerId>, gone: seq<PeerId>)
    ensures NoticesIn({}, before, after, connected, gone) == {}
  {
  }

  lemma AllNetworks(byNetwork: map<string, seq<PeerId>>, before: map<PeerId, PeerRow>, after: map<PeerId, PeerRow>,
                    connected: set<PeerId>, gone: seq<PeerId>)
    requires Grouped(before, gone, byNetwork)
    ensures NoticesIn(byNetwork.Keys, before, after, connected, gone) == Due(before, after, connected, gone)
  {
  }

  lemma NextNetwork(ns: set<string>, n: string, before: map<PeerId, PeerRow>, after: map<PeerId, PeerRow>,
                    connected: set<PeerId>, gone: seq<PeerId>)
    requires n !in ns
    ensures multiset(NoticesIn(ns + {n}, before, after, connected, gone))
            == multiset(NoticesIn(ns, before, after, connected, gone))
               + multiset(NoticesIn({n}, before, after, connected, gone))
  {
    var sofar := NoticesIn(ns, before, after, connected, gone);
    var more := NoticesIn({n}, before, after, connected, gone);
    assert NoticesIn(ns + {n}, before, after, connected, gone) == sofar + more;
    BagOfUnion(sofar, more);
  }

  // ----- the reaper -----

  lemma ReapedMeans(c: Config, i: Input, s: PairState, p: Pair)
    requires i.call.Reaped?
    ensures var e := EnvOf(i.peers, i.relayEnabled, i.now, i.loFirst, p);
            var gone := i.call.expired;
            var purged := RunFrom(c, s, Stamp(e, PurgesFor(gone, p)));
            RunFrom(c, s, TimedOf(i, p))
            == if i.call.deleted && (p.lo in gone || p.hi in gone)
               then purged.(rowLo := None, rowHi := None) else purged
  {
    var e := EnvOf(i.peers, i.relayEnabled, i.now, i.loFirst, p);
    var gone := i.call.expired;
    hide RunFrom, Stamp, PurgesFor, CascadesFor;
    var cascades := if i.call.deleted then CascadesFor(gone, p) else [];
    RunStampAppend(c, s, e, PurgesFor(gone, p), cascades);
    CascadesMean(c, RunFrom(c, s, Stamp(e, PurgesFor(gone, p))), e, gone, p);
    NothingGone(c, RunFrom(c, s, Stamp(e, PurgesFor(gone, p))), e, gone, p);
  }

  lemma {:induction false} PurgesElsewhere(gone: seq<PeerId>, p: Pair)
    ensures p.lo !in gone && p.hi !in gone ==> PurgesFor(gone, p) == []
  {
    if gone != [] {
      PurgesElsewhere(gone[..|gone| - 1], p);
    }
  }

  /** Reaper exactness. After a pass the peers left are exactly the unexpired ones; nothing the server holds,
      in memory or in the tables, mentions a removed peer; every other pair is as it was; and the notices sent
      are exactly one to each survivor for each peer removed from its own network. When the transaction fails
      the tables stay and no notice goes out, but the memory of the expired peers is gone all the same. */
  method Reap(s: Server, now: nat, commits: bool) returns (expired: seq<PeerId>)
    requires s.Valid()
    modifies s`activeNegotiations, s`timers, s`outbox, s`pairHealthMap, s`peers, s`links, s`ports, s`notices, s`history
    ensures s.Valid()
    ensures s.history == old(s.history) + if expired == []
            then [] else [old(s.InputAt(now, {}, Reaped(expired, commits)))]
    ensures forall i, j :: 0 <= i < j < |expired| ==> expired[i] != expired[j]
    ensures forall x :: x in expired <==>
              && x in old(s.peers) && old(s.peers)[x].ttlSeconds > 0
              && now > old(s.peers)[x].lastSeen + 1000 * old(s.peers)[x].ttlSeconds
    ensures forall p: Pair, x :: x in expired && p.Has(x) ==> p !in s.activeNegotiations && p !in s.pairHealthMap
    ensures forall q: Pair {:trigger s.Slice(q)} ::
            q.Proper() && q.lo !in expired && q.hi !in expired ==> s.Slice(q) == old(s.Slice(q))
    ensures commits ==> s.peers == map x | x in old(s.peers) && x !in expired :: old(s.peers)[x]
    ensures commits ==> forall x :: x in old(s.peers) ==>
              (x in s.peers <==> old(s.peers)[x].ttlSeconds == 0
                                 || now <= old(s.peers)[x].lastSeen + 1000 * old(s.peers)[x].ttlSeconds)
    ensures commits ==> s.links.Keys == set k | k in old(s.links) && k.0 !in expired && k.1 !in expired
    ensures commits ==> s.ports.Keys == set k | k in old(s.ports) && k.0 !in expired && k.1 !in expired
    ensures commits ==>
            multiset(s.notices)
            == multiset(old(s.notices)) + multiset(Due(old(s.peers), s.peers, s.connections.Keys, expired))
    ensures commits ==> forall to, x, heard ::
              multiset(s.notices)[Notice(to, x, heard)] == multiset(old(s.notices))[Notice(to, x, heard)]
                + if to in s.peers && x in expired && old(s.peers)[x].network == s.peers[to].network
                     && heard == (to in s.connections) then 1 else 0
    ensures !commits ==>
            s.peers == old(s.peers) && s.links == old(s.links) && s.ports == old(s.ports) && s.notices == old(s.notices)
  {
    hide LogOf, Less, Server.Slice, Server.Core, RunFrom, Run, Project, Stamp, TimedOf, PurgesFor, CascadesFor, Due,
         AfterReap;
    expired := SelectExpired(s.peers, now);
    if expired == [] {
      NothingDue(s.peers, s.connections.Keys);
      return;
    }
    ghost var input := s.InputAt(now, {}, Reaped(expired, commits));
    RemoveExpired(s, expired, now, commits);
    if commits { NoticesDue(old(s.peers), s.peers, s.connections.Keys, expired); }
    s.history := s.history + [input];
    forall q: Pair | q.Proper()
      ensures s.Slice(q) == RunFrom(s.config, old(s.Slice(q)), TimedOf(input, q))
      ensures q.lo !in expired && q.hi !in expired ==> s.Slice(q) == old(s.Slice(q))
    {
      ReapedIs(s.config, input, old(s.Slice(q)), q);
    }
    s.Extends(input);
  }

  method RemoveExpired(s: Server, gone: seq<PeerId>, now: nat, commits: bool)
    requires s.Inv() && s.Keyed() && Distinct(gone) && forall x :: x in gone ==> x in s.peers
    modifies s`activeNegotiations, s`timers, s`outbox, s`pairHealthMap, s`peers, s`links, s`ports, s`notices
    ensures s.Inv() && s.Keyed()
    ensures forall p: Pair, x :: x in gone && p.Has(x) ==> p !in s.activeNegotiations && p !in s.pairHealthMap
    ensures forall q: Pair {:trigger s.Slice(q)} :: q.Proper() ==>
              s.Slice(q) == AfterReap(s.config, EnvOf(old(s.peers), s.relayEnabled, now, {}, q), old(s.Slice(q)), gone,
                                      commits, q)
    ensures commits ==> s.peers == map x | x in old(s.peers) && x !in gone :: old(s.peers)[x]
    ensures commits ==> s.links.Keys == set k | k in old(s.links) && k.0 !in gone && k.1 !in gone
    ensures commits ==> s.ports.Keys == set k | k in old(s.ports) && k.0 !in gone && k.1 !in gone
    ensures commits ==>
            multiset(s.notices)
            == multiset(old(s.notices)) + multiset(Due(old(s.peers), s.peers, s.connections.Keys, gone))
    ensures !commits ==>
            s.peers == old(s.peers) && s.links == old(s.links) && s.ports == old(s.ports) && s.notices == old(s.notices)
  {
    hide LogOf, Less, Server.Slice, Server.Core, Server.Live, Server.Keyed, RunFrom, Stamp, PurgesFor, Due, Grouped,
         EnvOf, Distinct;
    var byNetwork := GroupByNetwork(s.peers, gone);
    PurgeMemory(s, gone, now);
    if commits {
      var before := s.peers;
      DeleteRows(s, gone);
      Notify(s, before, gone, byNetwork);
    }
  }

  /** The notices due, one by one. */
  lemma NoticesDue(before: map<PeerId, PeerRow>, after: map<PeerId, PeerRow>, connected: set<PeerId>, gone: seq<PeerId>)
    requires forall x :: x in gone ==> x in before
    ensures forall to, x, heard ::
              multiset(Due(before, after, connected, gone))[Notice(to, x, heard)]
              == if to in after && x in gone && before[x].network == after[to].network && heard == (to in connected)
                 then 1 else 0
  {
  }

  lemma NothingDue(peers: map<PeerId, PeerRow>, connected: set<PeerId>)
    ensures Due(peers, peers, connected, []) == {}
  {
  }

  /** The state of a pair after its ends were purged and, if the transaction went through, its rows deleted. */
  function AfterReap(c: Config, e: Env, s: PairState, gone: seq<PeerId>, deleted: bool, p: Pair): PairState {
    var purged := RunFrom(c, s, Stamp(e, PurgesFor(gone, p)));
    if deleted && (p.lo in gone || p.hi in gone) then purged.(rowLo := None, rowHi := None) else purged
  }

  lemma ReapedIs(c: Config, i: Input, s: PairState, p: Pair)
    requires i.call.Reaped?
    ensures var e := EnvOf(i.peers, i.relayEnabled, i.now, i.loFirst, p);
            && RunFrom(c, s, TimedOf(i, p)) == AfterReap(c, e, s, i.call.expired, i.call.deleted, p)
            && (p.lo !in i.call.expired && p.hi !in i.call.expired ==>
                AfterReap(c, e, s, i.call.expired, i.call.deleted, p) == s)
  {
    hide RunFrom, Stamp, PurgesFor, CascadesFor, TimedOf;
    ReapedMeans(c, i, s, p);
    PurgesElsewhere(i.call.expired, p);
    NothingGone(c, s, EnvOf(i.peers, i.relayEnabled, i.now, i.loFirst, p), i.call.expired, p);
  }
}
