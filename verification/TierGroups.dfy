/** The three topology tiers of tier_groups.go: union-find over three growing sets of peer edges. */
module TierGroups {
  import opened Addresses
  import opened PeerGraph
  import opened UnionFind

  /** The three peer maps of one device; the numbers are link weights, which grouping ignores. */
  datatype PeerSets = PeerSets(p0: map<Address, int>, p1: map<Address, int>, p2: map<Address, int>)

  datatype Device = Device(peers: PeerSets, vfPeers: PeerSets)

  datatype Pcitopo = Pcitopo(devices: map<Address, Device>, vfDevices: map<Address, Device>)

  datatype Tiers = Tiers(tier0: map<Address, Address>, tier1: map<Address, Address>, tier2: map<Address, Address>)

  type Adjacency = map<Address, PeerSets>

  const NO_PEERS := PeerSets(map[], map[], map[])

  /** A Go map lookup: the zero value stands for a missing device. */
  function PeersOf(adjacency: Adjacency, a: Address): PeerSets {
    if a in adjacency then adjacency[a] else NO_PEERS
  }

  /** The peer maps that are active at a tier. */
  function PeersUpToTier(ps: PeerSets, maxTier: int): seq<map<Address, int>> {
    [ps.p0] + (if maxTier >= 1 then [ps.p1] else []) + (if maxTier >= 2 then [ps.p2] else [])
  }

  /** The neighbours of a device at a tier, as one set. */
  ghost function Neighbours(ps: PeerSets, maxTier: int): set<Address> {
    ps.p0.Keys + (if maxTier >= 1 then ps.p1.Keys else {}) + (if maxTier >= 2 then ps.p2.Keys else {})
  }

  ghost function Star(a: Address, neighbours: set<Address>): set<Edge> {
    set n | n in neighbours :: (a, n)
  }

  /** Every peer edge that some address of `addrs` lists at a tier. */
  ghost function EdgesFrom(addrs: set<Address>, adjacency: Adjacency, maxTier: int): set<Edge> {
    set a, n | a in addrs && n in Neighbours(PeersOf(adjacency, a), maxTier) :: (a, n)
  }

  ghost function TierEdges(adjacency: Adjacency, maxTier: int): set<Edge> {
    EdgesFrom(adjacency.Keys, adjacency, maxTier)
  }

  ghost function KeysOf(peers: seq<map<Address, int>>): set<Address> {
    set p, n | p in peers && n in p :: n
  }

  lemma KeysUpToTier(ps: PeerSets, maxTier: int)
    ensures KeysOf(PeersUpToTier(ps, maxTier)) == Neighbours(ps, maxTier)
  {
    var peers := PeersUpToTier(ps, maxTier);
    forall n | n in Neighbours(ps, maxTier) ensures n in KeysOf(peers) {
      assert ps.p0 in peers;
      assert maxTier >= 1 ==> ps.p1 in peers;
      assert maxTier >= 2 ==> ps.p2 in peers;
    }
  }

  lemma StarOfOneMore(addr: Address, peers: seq<map<Address, int>>, j: nat)
    requires j < |peers|
    ensures Star(addr, KeysOf(peers[..j + 1])) == Star(addr, KeysOf(peers[..j])) + Star(addr, peers[j].Keys)
  {
    assert peers[..j + 1] == peers[..j] + [peers[j]];
    assert KeysOf(peers[..j + 1]) == KeysOf(peers[..j]) + peers[j].Keys;
  }

  lemma EdgesFromOneMore(addrs: seq<Address>, i: nat, adjacency: Adjacency, maxTier: int)
    requires i < |addrs|
    ensures EdgesFrom(Elements(addrs[..i + 1]), adjacency, maxTier) ==
            EdgesFrom(Elements(addrs[..i]), adjacency, maxTier)
            + Star(addrs[i], Neighbours(PeersOf(adjacency, addrs[i]), maxTier))
  {
    assert addrs[..i + 1] == addrs[..i] + [addrs[i]];
  }

  ghost function Elements(addrs: seq<Address>): set<Address> {
    set a | a in addrs
  }

  ghost function EdgeSet(edges: seq<Edge>): set<Edge> {
    set e | e in edges
  }

  /** An edge merges two components when it joins known devices that the edges before it leave apart. */
  ghost predicate Merging(nodes: set<Address>, before: seq<Edge>, e: Edge) {
    e.0 in nodes && e.1 in nodes && !Connected(nodes, EdgeSet(before), e.0, e.1)
  }

  /** How many edges of a sequence merge two components. */
  ghost function Merges(nodes: set<Address>, edges: seq<Edge>): nat {
    if edges == [] then 0
    else
      var before := edges[..|edges| - 1];
      Merges(nodes, before) + if Merging(nodes, before, edges[|edges| - 1]) then 1 else 0
  }

  /** The forest after `union` has been called for these edges. */
  ghost predicate HasProcessed(uf: UnionFind, edges: seq<Edge>)
    reads uf
  {
    Represents(uf.root, EdgeSet(edges)) && uf.merges == Merges(uf.root.Keys, edges)
  }

  lemma OneMoreEdge(nodes: set<Address>, edges: seq<Edge>, e: Edge)
    ensures EdgeSet(edges + [e]) == EdgeSet(edges) + {e}
    ensures Merges(nodes, edges + [e]) == Merges(nodes, edges) + if Merging(nodes, edges, e) then 1 else 0
  {
    assert (edges + [e])[..|edges|] == edges;
  }

  /** `union` for one neighbour, known or not. */
  method UnionEdge(uf: UnionFind, a: Address, n: Address, ghost edges: seq<Edge>)
    requires uf.Valid() && a in uf.parent && HasProcessed(uf, edges)
    modifies uf
    ensures uf.Valid() && uf.parent.Keys == old(uf.parent).Keys
    ensures HasProcessed(uf, edges + [(a, n)])
  {
    if n in uf.parent {
      MergeRepresents(uf.root, EdgeSet(edges), a, n);
    } else {
      UnknownEdgeRepresented(uf.root, EdgeSet(edges), a, n);
    }
    OneMoreEdge(uf.root.Keys, edges, (a, n));
    uf.Union(a, n);
  }

  method UnionNeighbours(uf: UnionFind, addr: Address, peers: map<Address, int>, ghost edges: seq<Edge>)
    returns (ghost seen: seq<Edge>)
    requires uf.Valid() && addr in uf.parent && HasProcessed(uf, edges)
    modifies uf
    ensures uf.Valid() && uf.parent.Keys == old(uf.parent).Keys
    ensures HasProcessed(uf, seen) && EdgeSet(seen) == EdgeSet(edges) + Star(addr, peers.Keys)
  {
    var rest := peers.Keys;
    seen := edges;
    while rest != {}
      invariant uf.Valid() && uf.parent.Keys == old(uf.parent).Keys
      invariant rest <= peers.Keys
      invariant HasProcessed(uf, seen) && EdgeSet(seen) == EdgeSet(edges) + Star(addr, peers.Keys - rest)
      decreases rest
    {
      var neighbour :| neighbour in rest;
      UnionEdge(uf, addr, neighbour, seen);
      OneMoreEdge(uf.root.Keys, seen, (addr, neighbour));
      seen := seen + [(addr, neighbour)];
      rest := rest - {neighbour};
    }
  }

  method UnionPeers(uf: UnionFind, addr: Address, peers: seq<map<Address, int>>, ghost edges: seq<Edge>)
    returns (ghost seen: seq<Edge>)
    requires uf.Valid() && addr in uf.parent && HasProcessed(uf, edges)
    modifies uf
    ensures uf.Valid() && uf.parent.Keys == old(uf.parent).Keys
    ensures HasProcessed(uf, seen) && EdgeSet(seen) == EdgeSet(edges) + Star(addr, KeysOf(peers))
  {
    seen := edges;
    for j := 0 to |peers|
      invariant uf.Valid() && uf.parent.Keys == old(uf.parent).Keys
      invariant HasProcessed(uf, seen)
      invariant EdgeSet(seen) == EdgeSet(edges) + Star(addr, KeysOf(peers[..j]))
    {
      seen := UnionNeighbours(uf, addr, peers[j], seen);
      StarOfOneMore(addr, peers, j);
    }
    assert peers[..|peers|] == peers;
  }

  /** For every order of `allAddrs` and of each peer map, the result names every connected component by
      its smallest address; the groups number the devices less the edges that, in the order in which they were
      processed, merged two components. */
  method ConnectedComponents(allAddrs: seq<Address>, adjacency: Adjacency, maxTier: int)
    returns (groups: map<Address, Address>, ghost edges: seq<Edge>)
    ensures EdgeSet(edges) == EdgesFrom(Elements(allAddrs), adjacency, maxTier)
    ensures NamesComponents(groups, Elements(allAddrs), EdgesFrom(Elements(allAddrs), adjacency, maxTier))
    ensures |groups.Values| == |Elements(allAddrs)| - Merges(Elements(allAddrs), edges)
  {
    var uf := new UnionFind(allAddrs);
    ghost var nodes := Elements(allAddrs);
    assert uf.parent.Keys == nodes;
    SingletonsRepresentNoEdges(uf.root);
    edges := [];
    assert EdgeSet(edges) == {};
    for i := 0 to |allAddrs|
      invariant uf.Valid() && uf.parent.Keys == nodes && fresh(uf)
      invariant HasProcessed(uf, edges)
      invariant EdgeSet(edges) == EdgesFrom(Elements(allAddrs[..i]), adjacency, maxTier)
    {
      var addr := allAddrs[i];
      edges := UnionPeers(uf, addr, PeersUpToTier(PeersOf(adjacency, addr), maxTier), edges);
      KeysUpToTier(PeersOf(adjacency, addr), maxTier);
      EdgesFromOneMore(allAddrs, i, adjacency, maxTier);
    }
    assert allAddrs[..|allAddrs|] == allAddrs;
    RootsNameComponents(uf.parent, uf.root, EdgeSet(edges));
    groups := uf.Groups();
    assert |uf.parent| == |uf.parent.Keys|;
  }

  /** The adjacency map of a topology; a VF entry replaces a PF entry with the same address. */
  ghost function AdjacencyOf(topo: Pcitopo): Adjacency {
    map a | a in topo.devices.Keys + topo.vfDevices.Keys ::
      if a in topo.vfDevices then topo.vfDevices[a].vfPeers else topo.devices[a].peers
  }

  method BuildAdjacency(topo: Pcitopo) returns (adjacency: Adjacency)
    ensures adjacency == AdjacencyOf(topo)
  {
    adjacency := map[];
    var rest := topo.devices.Keys;
    while rest != {}
      invariant rest <= topo.devices.Keys
      invariant adjacency == map a | a in topo.devices.Keys - rest :: topo.devices[a].peers
      decreases rest
    {
      var addr :| addr in rest;
      adjacency := adjacency[addr := topo.devices[addr].peers];
      rest := rest - {addr};
    }
    rest := topo.vfDevices.Keys;
    while rest != {}
      invariant rest <= topo.vfDevices.Keys
      invariant adjacency == map a | a in topo.devices.Keys + (topo.vfDevices.Keys - rest) ::
                               if a in topo.vfDevices.Keys - rest then topo.vfDevices[a].vfPeers
                               else topo.devices[a].peers
      decreases rest
    {
      var addr :| addr in rest;
      adjacency := adjacency[addr := topo.vfDevices[addr].vfPeers];
      rest := rest - {addr};
    }
  }

  ghost predicate NamesTiers(t: Tiers, adjacency: Adjacency) {
    && NamesComponents(t.tier0, adjacency.Keys, TierEdges(adjacency, 0))
    && NamesComponents(t.tier1, adjacency.Keys, TierEdges(adjacency, 1))
    && NamesComponents(t.tier2, adjacency.Keys, TierEdges(adjacency, 2))
  }

  // ----- What a group ID means, in terms of the topology -----

  ghost predicate Known(topo: Pcitopo, a: Address) {
    a in topo.devices || a in topo.vfDevices
  }

  /** The entry of x lists y in peers_0; a VF entry counts before a PF entry. */
  ghost predicate ListsIn0(topo: Pcitopo, x: Address, y: Address) {
    if x in topo.vfDevices then y in topo.vfDevices[x].vfPeers.p0
    else x in topo.devices && y in topo.devices[x].peers.p0
  }

  ghost predicate ListsIn1(topo: Pcitopo, x: Address, y: Address) {
    if x in topo.vfDevices then y in topo.vfDevices[x].vfPeers.p1
    else x in topo.devices && y in topo.devices[x].peers.p1
  }

  ghost predicate ListsIn2(topo: Pcitopo, x: Address, y: Address) {
    if x in topo.vfDevices then y in topo.vfDevices[x].vfPeers.p2
    else x in topo.devices && y in topo.devices[x].peers.p2
  }

  /** One of two known devices lists the other in a peer map of the tier. */
  ghost predicate Linked(topo: Pcitopo, tier: nat, x: Address, y: Address) {
    && Known(topo, x) && Known(topo, y)
    && (|| ListsIn0(topo, x, y) || ListsIn0(topo, y, x)
        || (tier >= 1 && (ListsIn1(topo, x, y) || ListsIn1(topo, y, x)))
        || (tier >= 2 && (ListsIn2(topo, x, y) || ListsIn2(topo, y, x))))
  }

  ghost predicate LinkedAt(topo: Pcitopo, tier: nat, path: seq<Address>, i: int)
    requires 0 < i < |path|
  {
    Linked(topo, tier, path[i - 1], path[i])
  }

  /** A chain of links leads from a to b. */
  ghost predicate Reachable(topo: Pcitopo, tier: nat, a: Address, b: Address) {
    exists path: seq<Address> ::
      && path != [] && path[0] == a && path[|path| - 1] == b && Known(topo, a)
      && forall i | 0 < i < |path| :: LinkedAt(topo, tier, path, i)
  }

  /** a comes before b in the dictionary. */
  ghost predicate Precedes(a: string, b: string) {
    exists k: nat :: k <= |a| && k < |b| && a[..k] == b[..k] && (k == |a| || a[k] < b[k])
  }

  ghost predicate GroupedAt(groups: map<Address, Address>, topo: Pcitopo, tier: nat, a: Address) {
    Known(topo, a) ==>
      && a in groups && Reachable(topo, tier, a, groups[a])
      && forall b | Reachable(topo, tier, a, b) :: b in groups && groups[b] == groups[a] && !Precedes(b, groups[a])
  }

  /** Exactly the devices of the topology are grouped; two are in one group if and only if a chain of links joins
      them; and a group is named by its first member in dictionary order. */
  ghost predicate GroupsByReachability(groups: map<Address, Address>, topo: Pcitopo, tier: nat) {
    && (forall a :: a in groups <==> Known(topo, a))
    && (forall a, b | a in groups && b in groups :: groups[a] == groups[b] <==> Reachable(topo, tier, a, b))
    && forall a {:trigger GroupedAt(groups, topo, tier, a)} :: GroupedAt(groups, topo, tier, a)
  }

  lemma LinkedIsJoined(topo: Pcitopo, tier: nat, x: Address, y: Address)
    ensures Linked(topo, tier, x, y) <==> Joined(AdjacencyOf(topo).Keys, TierEdges(AdjacencyOf(topo), tier), x, y)
  {
    var adjacency := AdjacencyOf(topo);
    NeighboursAreListed(topo, tier, x, y);
    NeighboursAreListed(topo, tier, y, x);
    assert (x, y) in TierEdges(adjacency, tier) <==>
             x in adjacency && y in Neighbours(PeersOf(adjacency, x), tier);
    assert (y, x) in TierEdges(adjacency, tier) <==>
             y in adjacency && x in Neighbours(PeersOf(adjacency, y), tier);
  }

  lemma NeighboursAreListed(topo: Pcitopo, tier: nat, x: Address, y: Address)
    ensures x in AdjacencyOf(topo) <==> Known(topo, x)
    ensures y in Neighbours(PeersOf(AdjacencyOf(topo), x), tier) <==>
              || ListsIn0(topo, x, y) || (tier >= 1 && ListsIn1(topo, x, y)) || (tier >= 2 && ListsIn2(topo, x, y))
  {
  }

  lemma ReachableIsConnected(topo: Pcitopo, tier: nat, a: Address, b: Address)
    ensures Reachable(topo, tier, a, b) <==>
              Connected(AdjacencyOf(topo).Keys, TierEdges(AdjacencyOf(topo), tier), a, b)
  {
    var nodes, edges := AdjacencyOf(topo).Keys, TierEdges(AdjacencyOf(topo), tier);
    forall path: seq<Address>, i | 0 < i < |path|
      ensures LinkedAt(topo, tier, path, i) <==> Hop(nodes, edges, path, i)
    {
      LinkedIsJoined(topo, tier, path[i - 1], path[i]);
    }
    NeighboursAreListed(topo, tier, a, a);
    if path :| PathBetween(nodes, edges, path, a, b) {
      assert path[0] in path;
    }
    if path: seq<Address> :| && path != [] && path[0] == a && path[|path| - 1] == b && Known(topo, a)
                             && forall i | 0 < i < |path| :: LinkedAt(topo, tier, path, i) {
      forall x | x in path ensures x in nodes {
        var i :| 0 <= i < |path| && path[i] == x;
        assert i > 0 ==> Hop(nodes, edges, path, i);
      }
      assert PathBetween(nodes, edges, path, a, b);
    }
  }

  lemma NamesGroupByReachability(groups: map<Address, Address>, topo: Pcitopo, tier: nat)
    requires NamesComponents(groups, AdjacencyOf(topo).Keys, TierEdges(AdjacencyOf(topo), tier))
    ensures GroupsByReachability(groups, topo, tier)
  {
    var nodes, edges := AdjacencyOf(topo).Keys, TierEdges(AdjacencyOf(topo), tier);
    forall a, b | a in groups && b in groups ensures groups[a] == groups[b] <==> Reachable(topo, tier, a, b) {
      ReachableIsConnected(topo, tier, a, b);
      SameGroupIffConnected(groups, nodes, edges, a, b);
    }
    forall a ensures GroupedAt(groups, topo, tier, a) {
      if Known(topo, a) {
        assert InOwnGroup(groups, nodes, edges, a);
        ReachableIsConnected(topo, tier, a, groups[a]);
        forall b | Reachable(topo, tier, a, b)
          ensures b in groups && groups[b] == groups[a] && !Precedes(b, groups[a])
        {
          ReachableIsConnected(topo, tier, a, b);
          ConnectedNodesAreKnown(nodes, edges, a, b);
          SameGroupIffConnected(groups, nodes, edges, a, b);
          Trichotomy(groups[a], b);
          LessIsLexicographic(b, groups[a]);
        }
      }
    }
  }

  method KeysInSomeOrder(adjacency: Adjacency) returns (allAddrs: seq<Address>)
    ensures Elements(allAddrs) == adjacency.Keys
  {
    allAddrs := [];
    var rest := adjacency.Keys;
    while rest != {}
      invariant rest <= adjacency.Keys && Elements(allAddrs) == adjacency.Keys - rest
      decreases rest
    {
      var addr :| addr in rest;
      assert Elements(allAddrs + [addr]) == Elements(allAddrs) + {addr};
      allAddrs := allAddrs + [addr];
      rest := rest - {addr};
    }
  }

  method GenerateTierGroupsFromTopo(topo: Pcitopo) returns (t: Tiers)
    ensures NamesTiers(t, AdjacencyOf(topo))
    ensures GroupsByReachability(t.tier0, topo, 0)
    ensures GroupsByReachability(t.tier1, topo, 1)
    ensures GroupsByReachability(t.tier2, topo, 2)
  {
    var adjacency := BuildAdjacency(topo);
    var allAddrs := KeysInSomeOrder(adjacency);
    var t0, _ := ConnectedComponents(allAddrs, adjacency, 0);
    var t1, _ := ConnectedComponents(allAddrs, adjacency, 1);
    var t2, _ := ConnectedComponents(allAddrs, adjacency, 2);
    t := Tiers(t0, t1, t2);
    NamesGroupByReachability(t0, topo, 0);
    NamesGroupByReachability(t1, topo, 1);
    NamesGroupByReachability(t2, topo, 2);
  }

  /** All iteration orders give the same three maps. */
  lemma TiersAreDeterministic(t: Tiers, u: Tiers, adjacency: Adjacency)
    requires NamesTiers(t, adjacency) && NamesTiers(u, adjacency)
    ensures t == u
  {
    ComponentNamesAreUnique(t.tier0, u.tier0, adjacency.Keys, TierEdges(adjacency, 0));
    ComponentNamesAreUnique(t.tier1, u.tier1, adjacency.Keys, TierEdges(adjacency, 1));
    ComponentNamesAreUnique(t.tier2, u.tier2, adjacency.Keys, TierEdges(adjacency, 2));
  }

  ghost predicate CoarsensAt(fine: map<Address, Address>, coarse: map<Address, Address>, a: Address) {
    a in fine && a in coarse ==> fine[a] in coarse && coarse[fine[a]] == coarse[a] && AtMost(coarse[a], fine[a])
  }

  ghost predicate KeptTogether(fine: map<Address, Address>, coarse: map<Address, Address>, a: Address, b: Address) {
    a in fine && b in fine && a in coarse && b in coarse && fine[a] == fine[b] ==> coarse[a] == coarse[b]
  }

  /** `coarse` only ever joins groups of `fine`: equal fine groups have equal coarse groups, the coarse
      representative is that of the fine representative and not above it, and groups never get more. */
  ghost predicate Nested(fine: map<Address, Address>, coarse: map<Address, Address>) {
    && fine.Keys == coarse.Keys
    && (forall a {:trigger CoarsensAt(fine, coarse, a)} :: CoarsensAt(fine, coarse, a))
    && (forall a, b {:trigger KeptTogether(fine, coarse, a, b)} :: KeptTogether(fine, coarse, a, b))
    && |coarse.Values| <= |fine.Values|
  }

  lemma {:induction false} ImageIsNotLarger(s: set<Address>, image: set<Address>, f: map<Address, Address>)
    requires s <= f.Keys
    requires image == set a | a in s :: f[a]
    ensures |image| <= |s|
    decreases s
  {
    if s != {} {
      var a :| a in s;
      ImageIsNotLarger(s - {a}, set b | b in s - {a} :: f[b], f);
      assert image == (set b | b in s - {a} :: f[b]) + {f[a]};
    }
  }

  lemma MoreEdgesNest(
      fine: map<Address, Address>, coarse: map<Address, Address>,
      nodes: set<Address>, edges: set<Edge>, more: set<Edge>)
    requires edges <= more
    requires NamesComponents(fine, nodes, edges) && NamesComponents(coarse, nodes, more)
    ensures Nested(fine, coarse)
  {
    forall a | a in nodes ensures CoarsensAt(fine, coarse, a) {
      assert InOwnGroup(fine, nodes, edges, a);
      ConnectedNodesAreKnown(nodes, edges, a, fine[a]);
      ConnectedIsMonotone(nodes, edges, more, a, fine[a]);
      SameGroupIffConnected(coarse, nodes, more, a, fine[a]);
    }
    forall a, b ensures KeptTogether(fine, coarse, a, b) {
      assert CoarsensAt(fine, coarse, a) && CoarsensAt(fine, coarse, b);
    }
    CoarserGroupsAreFewer(fine, coarse);
  }

  lemma CoarserGroupsAreFewer(fine: map<Address, Address>, coarse: map<Address, Address>)
    requires fine.Keys == coarse.Keys
    requires forall a {:trigger CoarsensAt(fine, coarse, a)} :: CoarsensAt(fine, coarse, a)
    ensures |coarse.Values| <= |fine.Values|
  {
    forall a | a in fine.Values ensures a in coarse {
      var b :| b in fine && fine[b] == a;
      assert CoarsensAt(fine, coarse, b);
    }
    var image := set a | a in fine.Values :: coarse[a];
    forall v | v in coarse.Values ensures v in image {
      var a :| a in coarse && coarse[a] == v;
      assert CoarsensAt(fine, coarse, a) && fine[a] in fine.Values;
    }
    assert coarse.Values == image;
    ImageIsNotLarger(fine.Values, image, coarse);
  }

  lemma TiersAreNested(t: Tiers, adjacency: Adjacency)
    requires NamesTiers(t, adjacency)
    ensures Nested(t.tier0, t.tier1) && Nested(t.tier1, t.tier2)
  {
    MoreEdgesNest(t.tier0, t.tier1, adjacency.Keys, TierEdges(adjacency, 0), TierEdges(adjacency, 1));
    MoreEdgesNest(t.tier1, t.tier2, adjacency.Keys, TierEdges(adjacency, 1), TierEdges(adjacency, 2));
  }
}
