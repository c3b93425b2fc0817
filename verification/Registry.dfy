/** The tables networks and peers under the routes of packages/server/src/api.ts, with allocateIp. Nothing in
    the schema keeps mesh addresses apart; the allocator does. */
module Registry {
  import opened Common
  import opened Decimals
  import opened Subnet

  type Id = string

  datatype Member = Member(network: Id, name: string, ipv4: string)

  datatype Answer = Created(ipv4: string) | NoNetwork | NoFreeIps | NameTaken

  /** The address was handed out for a host of the block. */
  ghost predicate HostAddress(b: Block, ip: string)
    requires b.Sane()
  {
    exists k: nat :: b.Host(k) && ip == Address(k)
  }

  /** The addresses of a block's hosts. */
  ghost function Hosts(b: Block): map<nat, string>
    requires b.Sane()
  {
    map k | k in Range(b.base + 1, b.base + b.Size() - 1) :: Address(k)
  }

  lemma HostsDiffer(b: Block, i: nat, j: nat)
    requires b.Sane() && b.Host(i) && b.Host(j) && Address(i) == Address(j)
    ensures i == j
  {
    hide Address, Block.Size;
    BlocksDivideWord(b);
    AddressInjective(i, j);
    SameResidue(i, j);
  }

  /** Hosts have different addresses, even in a block that wraps around the address space. */
  lemma {:induction false} HostsCount(b: Block)
    requires b.Sane()
    ensures |Hosts(b).Values| == Pow2(32 - b.prefix) - 2
  {
    hide Address, Block.Size, Range;
    SizeIs(b);
    var all := Hosts(b);
    forall i, j | i in all && j in all && all[i] == all[j] ensures i == j {
      HostsDiffer(b, i, j);
    }
    InjectiveCounts(all);
    assert all.Keys == Range(b.base + 1, b.base + b.Size() - 1);
  }

  lemma SameResidue(i: nat, j: nat)
    requires i % WORD == j % WORD && i < j + WORD && j < i + WORD
    ensures i == j
  {
  }

  /** The addresses in use in a network. */
  function AddressesIn(peers: map<Id, Member>, network: Id): map<Id, string> {
    map id | id in peers && peers[id].network == network :: peers[id].ipv4
  }

  /** Among peers with different host addresses, all hosts are taken exactly when there are as many peers. */
  lemma TakenIffFull(b: Block, used: map<Id, string>)
    requires b.Sane() && Injective(used) && forall id :: id in used ==> HostAddress(b, used[id])
    ensures (forall k: nat :: b.base < k < b.base + Pow2(32 - b.prefix) - 1 ==> Address(k) in used.Values)
            <==> |used| == Pow2(32 - b.prefix) - 2
  {
    hide Address;
    HostsCount(b);
    InjectiveCounts(used);
    var all := Hosts(b);
    forall v | v in used.Values ensures v in all.Values {
      var id :| id in used && used[id] == v;
      var k: nat :| b.Host(k) && v == Address(k);
      assert k in all;
    }
    SubsetCounts(used.Values, all.Values);
    SizeIs(b);
    if forall k: nat :: b.base < k < b.base + Pow2(32 - b.prefix) - 1 ==> Address(k) in used.Values {
      forall v | v in all.Values ensures v in used.Values {
        var k :| k in all && all[k] == v;
      }
      assert used.Values == all.Values;
    }
    if used.Values == all.Values {
      forall k: nat | b.base < k < b.base + b.Size() - 1 ensures Address(k) in used.Values {
        assert k in all && all[k] in all.Values;
      }
    }
  }

  // ----- what the tables keep -----

  ghost predicate Accepted(number: Numeral, networks: map<Id, string>) {
    forall n :: n in networks ==> IsValidCIDR(number, networks[n])
  }

  /** Every peer belongs to a network and has a host address of its block. */
  ghost predicate Addressed(number: Numeral, networks: map<Id, string>, peers: map<Id, Member>)
    requires Accepted(number, networks)
  {
    forall id :: id in peers ==>
      peers[id].network in networks && HostAddress(BlockOf(number, networks[peers[id].network]), peers[id].ipv4)
  }

  /** No two peers of one network share an address or a name. */
  ghost predicate Apart(peers: map<Id, Member>) {
    forall a, b :: a in peers && b in peers && a != b && peers[a].network == peers[b].network ==>
      peers[a].ipv4 != peers[b].ipv4 && peers[a].name != peers[b].name
  }

  lemma FewerAreApart(peers: map<Id, Member>, rest: map<Id, Member>)
    requires Apart(peers) && forall id :: id in rest ==> id in peers && rest[id] == peers[id]
    ensures Apart(rest)
  {
  }

  predicate NameIn(peers: map<Id, Member>, network: Id, name: string) {
    exists p :: p in peers && peers[p].network == network && peers[p].name == name
  }

  lemma OneMoreApart(peers: map<Id, Member>, id: Id, m: Member)
    requires Apart(peers) && id !in peers && m.ipv4 !in AddressesIn(peers, m.network).Values
    requires !NameIn(peers, m.network, m.name)
    ensures Apart(peers[id := m])
  {
    var used := AddressesIn(peers, m.network);
    forall p | p in peers && peers[p].network == m.network ensures peers[p].ipv4 != m.ipv4 && peers[p].name != m.name {
      assert p in used && used[p] in used.Values;
    }
  }

  lemma OneMoreAddressed(number: Numeral, networks: map<Id, string>, peers: map<Id, Member>, id: Id, m: Member)
    requires Accepted(number, networks) && Addressed(number, networks, peers) && m.network in networks
    requires HostAddress(BlockOf(number, networks[m.network]), m.ipv4)
    ensures Addressed(number, networks, peers[id := m])
  {
    hide HostAddress, BlockOf, IsValidCIDR;
  }

  lemma AllocatedIsHost(b: Block, ip: string)
    requires b.Sane() && exists k: nat :: b.base < k < b.base + Pow2(32 - b.prefix) - 1 && ip == Address(k)
    ensures HostAddress(b, ip)
  {
    hide Address;
    SizeIs(b);
  }

  /** The network's addresses, ready to be counted. */
  lemma UsedAreHosts(number: Numeral, networks: map<Id, string>, peers: map<Id, Member>, network: Id)
    requires Accepted(number, networks) && Addressed(number, networks, peers) && Apart(peers) && network in networks
    ensures var used := AddressesIn(peers, network);
            Injective(used) && forall id :: id in used ==> HostAddress(BlockOf(number, networks[network]), used[id])
  {
    hide BlockOf, IsValidCIDR, HostAddress;
  }

  class Tables {
    const number: Numeral
    /** The subnet of each network, as text. */
    var networks: map<Id, string>
    var peers: map<Id, Member>

    constructor (number: Numeral)
      requires Reads(number)
      ensures Valid() && networks == map[] && peers == map[]
    {
      this.number, networks, peers := number, map[], map[];
    }

    ghost predicate Valid()
      reads this
    {
      Reads(number) && Accepted(number, networks) && Addressed(number, networks, peers) && Apart(peers)
    }

    /** POST /api/networks: false when the subnet is refused. */
    method CreateNetwork(id: Id, subnet: string) returns (ok: bool)
      requires Valid() && id !in networks
      modifies this`networks
      ensures Valid() && ok == IsValidCIDR(number, subnet)
      ensures networks == if ok then old(networks)[id := subnet] else old(networks)
    {
      hide BlockOf, IsValidCIDR, HostAddress, Reads, Apart;
      ok := IsValidCIDR(number, subnet);
      if ok { networks := networks[id := subnet]; }
    }

    /** The query of allocateIp: the addresses of the network's peers. */
    method UsedAddresses(network: Id) returns (used: set<string>)
      ensures used == AddressesIn(peers, network).Values
    {
      used := AddressesIn(peers, network).Values;
    }

    /** POST /api/peers, for a new id and past the field checks. The peer gets the least free host address; the
        request fails exactly when the network is unknown, holds as many peers as it has hosts, or already has a
        peer of that name. */
    method Register(id: Id, network: Id, name: string) returns (r: Answer)
      requires Valid() && id !in peers
      modifies this`peers
      ensures Valid()
      ensures r.NoNetwork? <==> network !in networks
      ensures network in networks ==>
                var b := BlockOf(number, networks[network]);
                var used := old(AddressesIn(peers, network));
                && (r.NoFreeIps? <==> |used| == Pow2(32 - b.prefix) - 2)
                && (r.NameTaken? <==>
                      && |used| != Pow2(32 - b.prefix) - 2
                      && exists p :: p in old(peers) && old(peers)[p].network == network && old(peers)[p].name == name)
                && (r.Created? ==>
                      exists k: nat :: b.base < k < b.base + Pow2(32 - b.prefix) - 1 && r.ipv4 == Address(k)
                                       && Address(k) !in used.Values
                                       && forall j: nat :: b.base < j < k ==> Address(j) in used.Values)
      ensures peers == if r.Created? then old(peers)[id := Member(network, name, r.ipv4)] else old(peers)
    {
      hide BlockOf, IsValidCIDR, Reads, Apart, Address, AddressesIn, Addressed, Accepted, HostAddress, NameIn, Pow2;
      r := Answers(network, name);
      if r.Created? { Admit(id, Member(network, name, r.ipv4)); }
    }

    /** What the request is to be answered. */
    method Answers(network: Id, name: string) returns (r: Answer)
      requires Valid()
      ensures r.NoNetwork? <==> network !in networks
      ensures network in networks ==>
                var b := BlockOf(number, networks[network]);
                var used := AddressesIn(peers, network);
                && (r.NoFreeIps? <==> |used| == Pow2(32 - b.prefix) - 2)
                && (r.NameTaken? <==>
                      && |used| != Pow2(32 - b.prefix) - 2
                      && exists p :: p in peers && peers[p].network == network && peers[p].name == name)
                && (r.Created? ==>
                      && HostAddress(b, r.ipv4) && r.ipv4 !in used.Values && !NameIn(peers, network, name)
                      && exists k: nat :: b.base < k < b.base + Pow2(32 - b.prefix) - 1 && r.ipv4 == Address(k)
                                          && Address(k) !in used.Values
                                          && forall j: nat :: b.base < j < k ==> Address(j) in used.Values)
    {
      hide BlockOf, IsValidCIDR, Reads, Apart, Address, AddressesIn, Injective, Block.Size, HostAddress, Addressed,
           NameIn, Pow2;
      if network !in networks { return NoNetwork; }
      var b := BlockOf(number, networks[network]);
      var used := UsedAddresses(network);
      var ip := AllocateIp(b, used);
      UsedAreHosts(number, networks, peers, network);
      TakenIffFull(b, AddressesIn(peers, network));
      if ip.None? { return NoFreeIps; }
      NamedMeans(peers, network, name);
      if NameIn(peers, network, name) { return NameTaken; }
      AllocatedIsHost(b, ip.value);
      return Created(ip.value);
    }

    lemma NamedMeans(peers: map<Id, Member>, network: Id, name: string)
      ensures NameIn(peers, network, name) <==>
              exists p :: p in peers && peers[p].network == network && peers[p].name == name
    {
    }

    /** INSERT the new peer. */
    method Admit(id: Id, m: Member)
      requires Valid() && id !in peers && m.network in networks
      requires HostAddress(BlockOf(number, networks[m.network]), m.ipv4)
      requires m.ipv4 !in AddressesIn(peers, m.network).Values && !NameIn(peers, m.network, m.name)
      modifies this`peers
      ensures Valid() && peers == old(peers)[id := m]
    {
      hide BlockOf, IsValidCIDR, Reads, Apart, AddressesIn, HostAddress, Addressed, NameIn;
      OneMoreApart(peers, id, m);
      OneMoreAddressed(number, networks, peers, id, m);
      peers := peers[id := m];
    }

    /** DELETE /api/peers/:id, and what the reaper deletes. */
    method DeletePeer(id: Id)
      requires Valid()
      modifies this`peers
      ensures Valid() && peers == old(peers) - {id}
    {
      hide BlockOf, IsValidCIDR, HostAddress, Reads, Apart;
      FewerAreApart(peers, peers - {id});
      peers := peers - {id};
    }

    /** DELETE /api/networks/:id, with its peers by cascade. */
    method DeleteNetwork(id: Id)
      requires Valid()
      modifies this`networks, this`peers
      ensures Valid() && networks == old(networks) - {id}
      ensures peers == map p | p in old(peers) && old(peers)[p].network != id :: old(peers)[p]
    {
      hide BlockOf, IsValidCIDR, HostAddress, Reads, Apart;
      var rest := map p | p in peers && peers[p].network != id :: peers[p];
      FewerAreApart(peers, rest);
      networks, peers := networks - {id}, rest;
    }
  }

  /** After any run of registrations and deletions no two peers of a network share an address, and every
      address is one that isValidIPv4 accepts. */
  lemma AddressesAreDistinct(t: Tables, a: Id, b: Id)
    requires t.Valid() && a in t.peers && b in t.peers && t.peers[a].network == t.peers[b].network
    ensures t.peers[a].ipv4 == t.peers[b].ipv4 <==> a == b
    ensures IsValidIPv4(t.number, t.peers[a].ipv4)
  {
    hide BlockOf, IsValidCIDR, IsValidIPv4, Address, Reads, Block.Size;
    var blk := BlockOf(t.number, t.networks[t.peers[a].network]);
    var k: nat :| blk.Host(k) && t.peers[a].ipv4 == Address(k);
    AddressInjective(k, k % WORD);
    ValidIffPrinted(t.number, t.peers[a].ipv4);
  }
}
