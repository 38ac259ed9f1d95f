/** The greedy NUMA labelling of pcitopo.go: the first unlabelled device of an unspecified iteration
    order takes the next number, and so does everything its peers_0 map lists. */
module NumaLabels {
  import opened Addresses
  import opened Decimal
  import opened PeerGraph
  import opened TierGroups

  /** The numbers given so far and the next number to give. */
  datatype Labelling = Labelling(number: map<Address, nat>, next: nat)

  function Peer0(devices: map<Address, Device>, a: Address): set<Address>
    requires a in devices
  {
    devices[a].peers.p0.Keys
  }

  /** The map m with every key of `keys` set to n. */
  ghost function SetAll(m: map<Address, nat>, keys: set<Address>, n: nat): map<Address, nat> {
    map x | x in m.Keys + keys :: if x in keys then n else m[x]
  }

  /** The labelling after one device of the loop. */
  ghost function LabelOne(devices: map<Address, Device>, l: Labelling, a: Address): Labelling
    requires a in devices
  {
    if a in l.number then l
    else Labelling(SetAll(l.number, {a} + Peer0(devices, a), l.next), l.next + 1)
  }

  /** The labelling after the devices of `order`, in that order. */
  ghost function LabelAll(devices: map<Address, Device>, order: seq<Address>): Labelling
    requires forall a | a in order :: a in devices
  {
    if order == [] then Labelling(map[], 0)
    else
      var last := |order| - 1;
      LabelOne(devices, LabelAll(devices, order[..last]), order[last])
  }

  lemma {:induction false} VisitedHasLabel(devices: map<Address, Device>, order: seq<Address>, x: Address)
    requires (forall y | y in order :: y in devices) && x in order
    ensures x in LabelAll(devices, order).number
  {
    var init := order[..|order| - 1];
    if x in init { VisitedHasLabel(devices, init, x); }
  }

  ghost function Render(number: map<Address, nat>): map<Address, string> {
    map x | x in number :: Itoa(number[x])
  }

  /** An order in which a Go map with these keys may be walked. */
  ghost predicate IsOrderOf(order: seq<Address>, keys: set<Address>) {
    multiset(order) == multiset(keys)
  }

  lemma OrderElements(order: seq<Address>, keys: set<Address>)
    requires IsOrderOf(order, keys)
    ensures forall a :: a in order <==> a in keys
  {
    forall a ensures a in order <==> a in keys {
      assert a in order <==> a in multiset(order);
      assert a in keys <==> a in multiset(keys);
    }
  }

  lemma RenderUpdate(number: map<Address, nat>, a: Address, n: nat)
    ensures Render(number[a := n]) == Render(number)[a := Itoa(n)]
  {
  }

  lemma SetAllOneMore(number: map<Address, nat>, keys: set<Address>, a: Address, n: nat)
    ensures SetAll(number, keys, n)[a := n] == SetAll(number, keys + {a}, n)
  {
  }

  lemma SetAllAfterUpdate(number: map<Address, nat>, keys: set<Address>, a: Address, n: nat)
    ensures SetAll(number[a := n], keys, n) == SetAll(number, {a} + keys, n)
  {
  }

  method LabelPeers(numaMap: map<Address, string>, all: set<Address>, n: nat, ghost number: map<Address, nat>)
    returns (labelled: map<Address, string>)
    requires numaMap == Render(number)
    ensures labelled == Render(SetAll(number, all, n))
  {
    labelled := numaMap;
    var peers := all;
    ghost var done: set<Address> := {};
    assert SetAll(number, {}, n) == number;
    while peers != {}
      invariant peers <= all && done == all - peers
      invariant labelled == Render(SetAll(number, done, n))
      decreases peers
    {
      var peer :| peer in peers;
      RenderUpdate(SetAll(number, done, n), peer, n);
      SetAllOneMore(number, done, peer, n);
      labelled := labelled[peer := Itoa(n)];
      peers := peers - {peer};
      done := done + {peer};
    }
    assert done == all;
  }

  /** The map is the greedy labelling for some order of the devices. */
  ghost predicate LabelsInSomeOrder(topo: Pcitopo, numaMap: map<Address, string>) {
    exists order :: LabelsInOrder(topo, numaMap, order)
  }

  ghost predicate LabelsInOrder(topo: Pcitopo, numaMap: map<Address, string>, order: seq<Address>) {
    && IsOrderOf(order, topo.devices.Keys) && (forall a | a in order :: a in topo.devices)
    && numaMap == Render(LabelAll(topo.devices, order).number)
  }

  method GenerateNumaInfoMapFromTopo(topo: Pcitopo) returns (numaMap: map<Address, string>)
    ensures LabelsInSomeOrder(topo, numaMap)
  {
    numaMap := map[];
    var numai := 0;
    ghost var order: seq<Address> := [];
    ghost var l := Labelling(map[], 0);
    var rest := topo.devices.Keys;
    while rest != {}
      invariant rest <= topo.devices.Keys && Walked(topo.devices, order, rest)
      invariant numaMap == Render(l.number) && numai == l.next
      invariant l == LabelAll(topo.devices, order)
      decreases rest
    {
      var pciAddress :| pciAddress in rest;
      numaMap, numai := LabelNext(topo.devices, numaMap, numai, pciAddress, l);
      OrderGrows(topo.devices, order, rest, pciAddress);
      l := LabelOne(topo.devices, l, pciAddress);
      rest := rest - {pciAddress};
      order := order + [pciAddress];
    }
    assert topo.devices.Keys - rest == topo.devices.Keys;
    assert LabelsInOrder(topo, numaMap, order);
  }

  /** `order` holds the devices before `rest`, each once. */
  ghost predicate Walked(devices: map<Address, Device>, order: seq<Address>, rest: set<Address>) {
    IsOrderOf(order, devices.Keys - rest) && forall a | a in order :: a in devices
  }

  lemma OrderGrows(devices: map<Address, Device>, order: seq<Address>, rest: set<Address>, a: Address)
    requires a in rest && a in devices && Walked(devices, order, rest)
    ensures Walked(devices, order + [a], rest - {a})
    ensures LabelAll(devices, order + [a]) == LabelOne(devices, LabelAll(devices, order), a)
  {
    assert devices.Keys - (rest - {a}) == devices.Keys - rest + {a};
    assert (order + [a])[..|order|] == order;
  }

  /** The body of the loop: a device that has a label keeps it. */
  method LabelNext(
      devices: map<Address, Device>, numaMap: map<Address, string>, numai: nat, a: Address, ghost l: Labelling)
    returns (labelled: map<Address, string>, next: nat)
    requires a in devices && numaMap == Render(l.number) && numai == l.next
    ensures labelled == Render(LabelOne(devices, l, a).number) && next == LabelOne(devices, l, a).next
  {
    labelled, next := numaMap, numai;
    if a !in numaMap {
      labelled := LabelDevice(numaMap, a, devices[a].peers.p0.Keys, numai, l.number);
      next := numai + 1;
    }
  }

  /** A device that had no label takes number n, and so do all its peers. */
  method LabelDevice(
      numaMap: map<Address, string>, a: Address, peers: set<Address>, n: nat, ghost number: map<Address, nat>)
    returns (labelled: map<Address, string>)
    requires numaMap == Render(number)
    ensures labelled == Render(SetAll(number, {a} + peers, n))
  {
    RenderUpdate(number, a, n);
    labelled := LabelPeers(numaMap[a := Itoa(n)], peers, n, number[a := n]);
    SetAllAfterUpdate(number, peers, a, n);
  }

  /** The labelling puts two PF devices together exactly when tier 0 does. */
  ghost predicate Agrees(topo: Pcitopo, tier0: map<Address, Address>, numa: map<Address, string>) {
    && topo.devices.Keys <= numa.Keys && topo.devices.Keys <= tier0.Keys
    && forall a, b | a in topo.devices && b in topo.devices :: numa[a] == numa[b] <==> tier0[a] == tier0[b]
  }

  /** Any two PF devices of one tier-0 group list each other in peers_0. */
  ghost predicate GroupsAreCliques(topo: Pcitopo, tier0: map<Address, Address>) {
    && topo.devices.Keys <= tier0.Keys
    && forall a, b | a in topo.devices && b in topo.devices && a != b && tier0[a] == tier0[b] ::
         b in Peer0(topo.devices, a)
  }

  ghost predicate PeersAreMutual(topo: Pcitopo) {
    forall a, b | a in topo.devices && b in topo.devices && b in Peer0(topo.devices, a) :: a in Peer0(topo.devices, b)
  }

  /** tier0 is the tier-0 result for a topology in which no VF entry has the address of a PF entry. */
  ghost predicate IsTier0(topo: Pcitopo, tier0: map<Address, Address>) {
    && topo.devices.Keys !! topo.vfDevices.Keys
    && NamesComponents(tier0, AdjacencyOf(topo).Keys, TierEdges(AdjacencyOf(topo), 0))
  }

  /** Direct peers share a tier-0 group. */
  lemma PeersShareTier0(topo: Pcitopo, tier0: map<Address, Address>, a: Address, b: Address)
    requires IsTier0(topo, tier0)
    requires a in topo.devices && b in topo.devices && b in Peer0(topo.devices, a)
    ensures a in tier0 && b in tier0 && tier0[a] == tier0[b]
  {
    var nodes, edges := AdjacencyOf(topo).Keys, TierEdges(AdjacencyOf(topo), 0);
    assert b in Neighbours(PeersOf(AdjacencyOf(topo), a), 0);
    assert (a, b) in edges;
    ConnectedByEdge(nodes, edges, a, b);
    SameGroupIffConnected(tier0, nodes, edges, a, b);
  }

  /** The tier-0 groups met so far. */
  ghost function GroupsOf(tier0: map<Address, Address>, order: seq<Address>): set<Address> {
    set a | a in order && a in tier0 :: tier0[a]
  }

  ghost predicate NumberUsed(topo: Pcitopo, number: map<Address, nat>, k: nat) {
    exists a :: a in topo.devices && a in number && number[a] == k
  }

  /** Loop invariant of the greedy labelling when groups are cliques: exactly the PF devices of the groups
      met so far are labelled, each group with one number of its own, out of 0 .. next - 1. */
  ghost predicate LabelsGroups(topo: Pcitopo, tier0: map<Address, Address>, met: set<Address>, l: Labelling) {
    && topo.devices.Keys <= tier0.Keys
    && (forall a | a in topo.devices :: a in l.number <==> tier0[a] in met)
    && (forall a, b | a in topo.devices && b in topo.devices && a in l.number && b in l.number ::
          l.number[a] == l.number[b] <==> tier0[a] == tier0[b])
    && (forall a | a in topo.devices && a in l.number :: l.number[a] < l.next)
    && (forall k: nat | k < l.next :: NumberUsed(topo, l.number, k))
    && l.next == |met|
  }

  /** a and its peers are, among the PF devices, the tier-0 group of a. */
  ghost predicate PeersAreGroup(topo: Pcitopo, tier0: map<Address, Address>, a: Address)
    requires a in topo.devices && topo.devices.Keys <= tier0.Keys
  {
    forall x | x in topo.devices :: x == a || x in Peer0(topo.devices, a) <==> tier0[x] == tier0[a]
  }

  ghost predicate PeersAreGroups(topo: Pcitopo, tier0: map<Address, Address>) {
    && topo.devices.Keys <= tier0.Keys
    && forall a | a in topo.devices :: PeersAreGroup(topo, tier0, a)
  }

  lemma CliquesAreGroups(topo: Pcitopo, tier0: map<Address, Address>)
    requires IsTier0(topo, tier0) && GroupsAreCliques(topo, tier0)
    ensures PeersAreGroups(topo, tier0)
  {
    forall a, x | a in topo.devices && x in topo.devices && x in Peer0(topo.devices, a) ensures tier0[x] == tier0[a] {
      PeersShareTier0(topo, tier0, a, x);
    }
  }

  lemma LabelOneKeeps(topo: Pcitopo, tier0: map<Address, Address>, met: set<Address>, l: Labelling, a: Address)
    requires a in topo.devices && LabelsGroups(topo, tier0, met, l) && PeersAreGroup(topo, tier0, a)
    ensures LabelsGroups(topo, tier0, met + {tier0[a]}, LabelOne(topo.devices, l, a))
  {
    if a in l.number {
      assert met + {tier0[a]} == met;
    } else {
      var m := LabelOne(topo.devices, l, a);
      forall k: nat | k < m.next ensures NumberUsed(topo, m.number, k) {
        if k < l.next {
          assert NumberUsed(topo, l.number, k);
          var x :| x in topo.devices && x in l.number && l.number[x] == k;
          assert x in m.number && m.number[x] == k;
        } else {
          assert a in m.number && m.number[a] == k;
        }
      }
    }
  }

  lemma {:induction false} LabelAllKeeps(topo: Pcitopo, tier0: map<Address, Address>, order: seq<Address>)
    requires PeersAreGroups(topo, tier0)
    requires forall a | a in order :: a in topo.devices
    ensures LabelsGroups(topo, tier0, GroupsOf(tier0, order), LabelAll(topo.devices, order))
  {
    if order == [] {
      assert GroupsOf(tier0, order) == {};
    } else {
      var init, a := order[..|order| - 1], order[|order| - 1];
      LabelAllKeeps(topo, tier0, init);
      GroupsOfOneMore(tier0, init, a);
      assert order == init + [a];
      LabelOneKeeps(topo, tier0, GroupsOf(tier0, init), LabelAll(topo.devices, init), a);
    }
  }

  lemma GroupsOfOneMore(tier0: map<Address, Address>, order: seq<Address>, a: Address)
    requires a in tier0
    ensures GroupsOf(tier0, order + [a]) == GroupsOf(tier0, order) + {tier0[a]}
  {
  }

  lemma NumbersAgree(topo: Pcitopo, tier0: map<Address, Address>, met: set<Address>, l: Labelling)
    requires LabelsGroups(topo, tier0, met, l) && forall a | a in topo.devices :: a in l.number
    ensures Agrees(topo, tier0, Render(l.number))
    ensures forall k: nat :: k < l.next <==> NumberUsed(topo, l.number, k)
  {
    var numa := Render(l.number);
    forall a, b | a in topo.devices && b in topo.devices ensures numa[a] == numa[b] <==> l.number[a] == l.number[b] {
      if numa[a] == numa[b] { ItoaIsInjective(l.number[a], l.number[b]); }
    }
  }

  lemma OrderMeetsEveryGroup(topo: Pcitopo, tier0: map<Address, Address>, order: seq<Address>)
    requires topo.devices.Keys <= tier0.Keys && IsOrderOf(order, topo.devices.Keys)
    ensures GroupsOf(tier0, order) == set a | a in topo.devices && a in tier0 :: tier0[a]
    ensures forall a | a in topo.devices :: tier0[a] in GroupsOf(tier0, order)
  {
    OrderElements(order, topo.devices.Keys);
    forall a | a in topo.devices ensures tier0[a] in GroupsOf(tier0, order) {
      assert a in order;
    }
  }

  /** When every tier-0 group is a clique, the greedy labelling of the PF devices is the tier-0 partition for
      every iteration order, and k groups get exactly the labels 0 .. k - 1. */
  lemma CliquesAreLabelledByGroup(topo: Pcitopo, tier0: map<Address, Address>, order: seq<Address>)
    requires PeersAreGroups(topo, tier0)
    requires IsOrderOf(order, topo.devices.Keys) && forall a | a in order :: a in topo.devices
    ensures var l := LabelAll(topo.devices, order);
            && Agrees(topo, tier0, Render(l.number))
            && l.next == |set a | a in topo.devices && a in tier0 :: tier0[a]|
            && forall k: nat :: k < l.next <==> NumberUsed(topo, l.number, k)
  {
    LabelAllKeeps(topo, tier0, order);
    OrderMeetsEveryGroup(topo, tier0, order);
    NumbersAgree(topo, tier0, GroupsOf(tier0, order), LabelAll(topo.devices, order));
  }

  lemma {:induction false} SomeOrder(keys: set<Address>) returns (order: seq<Address>)
    ensures IsOrderOf(order, keys)
    decreases keys
  {
    if keys == {} {
      order := [];
    } else {
      var a :| a in keys;
      var rest := SomeOrder(keys - {a});
      order := rest + [a];
      assert multiset(keys) == multiset(keys - {a}) + multiset{a};
    }
  }

  /** Two devices that are labelled apart first stay apart when peers are mutual: whoever is still
      unlabelled later lists neither of them. */
  lemma {:induction false} StayApart(topo: Pcitopo, a: Address, b: Address, rest: seq<Address>)
    requires PeersAreMutual(topo) && a in topo.devices && b in topo.devices && a != b
    requires b !in Peer0(topo.devices, a)
    requires forall x | x in rest :: x in topo.devices
    ensures var number := LabelAll(topo.devices, [a, b] + rest).number;
            && a in number && b in number && number[a] == 0 && number[b] == 1
            && Peer0(topo.devices, a) <= number.Keys && Peer0(topo.devices, b) <= number.Keys
  {
    if rest == [] {
      assert [a, b] + rest == [a, b];
      assert [a, b][..1] == [a] && [a][..0] == [];
      assert LabelAll(topo.devices, [a]).number == SetAll(map[], {a} + Peer0(topo.devices, a), 0);
    } else {
      var init, x := rest[..|rest| - 1], rest[|rest| - 1];
      assert rest == init + [x];
      StayApart(topo, a, b, init);
      assert ([a, b] + rest)[..|rest| + 1] == [a, b] + init;
      var l := LabelAll(topo.devices, [a, b] + init);
      assert LabelAll(topo.devices, [a, b] + rest) == LabelOne(topo.devices, l, x);
      assert l.next >= 2 by { NumbersAreBelowNext(topo.devices, [a, b] + init); }
    }
  }

  lemma {:induction false} NumbersAreBelowNext(devices: map<Address, Device>, order: seq<Address>)
    requires forall a | a in order :: a in devices
    ensures forall x | x in LabelAll(devices, order).number ::
              LabelAll(devices, order).number[x] < LabelAll(devices, order).next
  {
    if order != [] {
      NumbersAreBelowNext(devices, order[..|order| - 1]);
    }
  }

  /** With mutual peers, the greedy labelling is right for every order only if tier-0 groups are cliques. */
  lemma MissingPeerIsMislabelled(topo: Pcitopo, tier0: map<Address, Address>, a: Address, b: Address)
    returns (order: seq<Address>)
    requires PeersAreMutual(topo) && topo.devices.Keys <= tier0.Keys
    requires a in topo.devices && b in topo.devices && a != b
    requires tier0[a] == tier0[b] && b !in Peer0(topo.devices, a)
    ensures IsOrderOf(order, topo.devices.Keys) && forall x | x in order :: x in topo.devices
    ensures !Agrees(topo, tier0, Render(LabelAll(topo.devices, order).number))
  {
    var rest := SomeOrder(topo.devices.Keys - {a, b});
    order := [a, b] + rest;
    assert multiset(topo.devices.Keys) == multiset(topo.devices.Keys - {a, b}) + multiset{a, b};
    OrderElements(order, topo.devices.Keys);
    StayApart(topo, a, b, rest);
    var number := LabelAll(topo.devices, order).number;
    assert Render(number)[a] != Render(number)[b] by {
      if Render(number)[a] == Render(number)[b] { ItoaIsInjective(number[a], number[b]); }
    }
  }

  ghost predicate AgreesFor(topo: Pcitopo, tier0: map<Address, Address>, order: seq<Address>) {
    IsOrderOf(order, topo.devices.Keys) && (forall x | x in order :: x in topo.devices) ==>
      Agrees(topo, tier0, Render(LabelAll(topo.devices, order).number))
  }

  /** Cliques suffice, whatever else the peers are: one-sided entries cannot be within a group then. */
  lemma CliquesAgreeForEveryOrder(topo: Pcitopo, tier0: map<Address, Address>)
    requires IsTier0(topo, tier0) && GroupsAreCliques(topo, tier0)
    ensures forall order :: AgreesFor(topo, tier0, order)
  {
    CliquesAreGroups(topo, tier0);
    GroupsAgreeForEveryOrder(topo, tier0);
  }

  lemma GroupsAgreeForEveryOrder(topo: Pcitopo, tier0: map<Address, Address>)
    requires PeersAreGroups(topo, tier0)
    ensures forall order :: AgreesFor(topo, tier0, order)
  {
    forall order ensures AgreesFor(topo, tier0, order) {
      if IsOrderOf(order, topo.devices.Keys) && (forall x | x in order :: x in topo.devices) {
        CliquesAreLabelledByGroup(topo, tier0, order);
      }
    }
  }

  /** The exact condition: with mutual peers, the labelling agrees with tier 0 for every iteration order if
      and only if each tier-0 group's PF devices all list one another. */
  lemma LabellingAgreesIffCliques(topo: Pcitopo, tier0: map<Address, Address>)
    requires IsTier0(topo, tier0) && PeersAreMutual(topo)
    ensures (forall order :: AgreesFor(topo, tier0, order)) <==> GroupsAreCliques(topo, tier0)
  {
    assert topo.devices.Keys <= AdjacencyOf(topo).Keys;
    if GroupsAreCliques(topo, tier0) {
      CliquesAgreeForEveryOrder(topo, tier0);
    } else {
      var a, b :| && a in topo.devices && b in topo.devices && a != b
                  && tier0[a] == tier0[b] && b !in Peer0(topo.devices, a);
      var order := MissingPeerIsMislabelled(topo, tier0, a, b);
      assert !AgreesFor(topo, tier0, order);
    }
  }

  /** peers_0 among the PF devices is a disjoint union of cliques, and no peers_0 entry crosses between
      PF and VF devices. */
  ghost predicate CliquePeers(topo: Pcitopo) {
    && PeersAreMutual(topo)
    && (forall a, b, c | a in topo.devices && b in topo.devices && c in topo.devices && a != c &&
          b in Peer0(topo.devices, a) && c in Peer0(topo.devices, b) :: c in Peer0(topo.devices, a))
    && (forall a | a in topo.devices :: Peer0(topo.devices, a) !! topo.vfDevices.Keys)
    && (forall v | v in topo.vfDevices :: topo.vfDevices[v].vfPeers.p0.Keys !! topo.devices.Keys)
  }

  lemma {:induction false} CliqueIsClosed(topo: Pcitopo, p: seq<Address>, a: Address, b: Address)
    requires topo.devices.Keys !! topo.vfDevices.Keys && CliquePeers(topo)
    requires PathBetween(AdjacencyOf(topo).Keys, TierEdges(AdjacencyOf(topo), 0), p, a, b)
    requires a in topo.devices
    ensures b in topo.devices && (b == a || b in Peer0(topo.devices, a))
    decreases |p|
  {
    var nodes, edges := AdjacencyOf(topo).Keys, TierEdges(AdjacencyOf(topo), 0);
    if |p| > 1 {
      var init := p[..|p| - 1];
      var c := init[|init| - 1];
      forall i | 0 < i < |init| ensures Hop(nodes, edges, init, i) {
        assert Hop(nodes, edges, p, i);
      }
      CliqueIsClosed(topo, init, a, c);
      assert Hop(nodes, edges, p, |p| - 1);
      assert (c, b) in edges ==> b in Neighbours(PeersOf(AdjacencyOf(topo), c), 0);
      assert (b, c) in edges ==> c in Neighbours(PeersOf(AdjacencyOf(topo), b), 0);
    }
  }

  /** Clique-shaped peers make clique-shaped tier-0 groups, each device's peers being its group. */
  lemma CliquePeersAreGroups(topo: Pcitopo, tier0: map<Address, Address>)
    requires IsTier0(topo, tier0) && CliquePeers(topo)
    ensures GroupsAreCliques(topo, tier0) && PeersAreGroups(topo, tier0)
  {
    var nodes, edges := AdjacencyOf(topo).Keys, TierEdges(AdjacencyOf(topo), 0);
    forall a, b | a in topo.devices && b in topo.devices && a != b && tier0[a] == tier0[b]
      ensures b in Peer0(topo.devices, a)
    {
      SameGroupIffConnected(tier0, nodes, edges, a, b);
      var p :| PathBetween(nodes, edges, p, a, b);
      CliqueIsClosed(topo, p, a, b);
    }
    CliquesAreGroups(topo, tier0);
  }

  lemma GroupsAreLabelledInSomeOrder(topo: Pcitopo, tier0: map<Address, Address>, numaMap: map<Address, string>)
    requires PeersAreGroups(topo, tier0) && LabelsInSomeOrder(topo, numaMap)
    ensures Agrees(topo, tier0, numaMap)
  {
    var order :| LabelsInOrder(topo, numaMap, order);
    CliquesAreLabelledByGroup(topo, tier0, order);
  }

  /** Clique-shaped topologies: whatever order the generation took, its labels are the tier-0 partition of the
      PF devices. */
  lemma CliqueTopologiesAgree(topo: Pcitopo, tier0: map<Address, Address>, numaMap: map<Address, string>)
    requires IsTier0(topo, tier0) && CliquePeers(topo) && LabelsInSomeOrder(topo, numaMap)
    ensures Agrees(topo, tier0, numaMap)
  {
    CliquePeersAreGroups(topo, tier0);
    GroupsAreLabelledInSomeOrder(topo, tier0, numaMap);
  }
}
