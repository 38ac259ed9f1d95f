/** What the NUMA labels are, in terms of the topology: the devices that find themselves without a label take the
    numbers 0, 1, 2, ... in turn, and every address has the number of the last of them that is it or lists it. */
module NumaLeaders {
  import opened Addresses
  import opened Decimal
  import opened NumaLabels
  import opened TierGroups

  /** The i-th leader is x or lists x in peers_0. */
  ghost predicate Marks(devices: map<Address, Device>, leaders: seq<Address>, i: int, x: Address) {
    && 0 <= i < |leaders| && leaders[i] in devices
    && (x == leaders[i] || x in devices[leaders[i]].peers.p0)
  }

  ghost predicate LastMark(devices: map<Address, Device>, leaders: seq<Address>, i: int, x: Address) {
    Marks(devices, leaders, i, x) && forall j | Marks(devices, leaders, j, x) :: j <= i
  }

  /** Each leader is a device that no leader before it has marked. */
  ghost predicate AreLeaders(devices: map<Address, Device>, leaders: seq<Address>) {
    && (forall a | a in leaders :: a in devices)
    && forall i, j | 0 <= i < j < |leaders| :: !Marks(devices, leaders, i, leaders[j])
  }

  ghost predicate Numbered(devices: map<Address, Device>, leaders: seq<Address>, number: map<Address, nat>) {
    && (forall x :: x in number <==> exists i :: LastMark(devices, leaders, i, x))
    && forall i, x | LastMark(devices, leaders, i, x) :: x in number && number[x] == i
  }

  lemma OneMoreLeader(devices: map<Address, Device>, leaders: seq<Address>, a: Address)
    requires a in devices
    ensures forall i, x :: Marks(devices, leaders + [a], i, x) <==>
              Marks(devices, leaders, i, x) || (i == |leaders| && (x == a || x in devices[a].peers.p0))
  {
  }

  lemma LastMarkOneMore(devices: map<Address, Device>, leaders: seq<Address>, a: Address, i: int, x: Address)
    requires a in devices
    ensures LastMark(devices, leaders + [a], i, x) <==>
              if x == a || x in devices[a].peers.p0 then i == |leaders| else LastMark(devices, leaders, i, x)
  {
    OneMoreLeader(devices, leaders, a);
    assert x == a || x in devices[a].peers.p0 ==> Marks(devices, leaders + [a], |leaders|, x);
  }

  lemma NumberedOneMore(devices: map<Address, Device>, leaders: seq<Address>, l: Labelling, a: Address)
    requires a in devices && a !in l.number && Numbered(devices, leaders, l.number) && l.next == |leaders|
    ensures Numbered(devices, leaders + [a], LabelOne(devices, l, a).number)
  {
    var m := LabelOne(devices, l, a);
    forall i, x
      ensures LastMark(devices, leaders + [a], i, x) <==>
                if x == a || x in devices[a].peers.p0 then i == |leaders| else LastMark(devices, leaders, i, x)
    {
      LastMarkOneMore(devices, leaders, a, i, x);
    }
    forall x ensures x in m.number <==> exists i :: LastMark(devices, leaders + [a], i, x) {
      if x == a || x in devices[a].peers.p0 {
        assert LastMark(devices, leaders + [a], |leaders|, x);
      } else if i :| LastMark(devices, leaders, i, x) {
        assert LastMark(devices, leaders + [a], i, x);
      }
    }
  }

  lemma StillLeaders(devices: map<Address, Device>, leaders: seq<Address>, number: map<Address, nat>, a: Address)
    requires AreLeaders(devices, leaders) && Numbered(devices, leaders, number) && a in devices && a !in number
    ensures AreLeaders(devices, leaders + [a])
  {
    var more := leaders + [a];
    forall i, j | 0 <= i < j < |more| ensures !Marks(devices, more, i, more[j]) {
      assert Marks(devices, more, i, more[j]) ==> Marks(devices, leaders, i, more[j]);
      if j == |leaders| { UnnumberedIsUnmarked(devices, leaders, number, a, i); }
    }
  }

  lemma UnnumberedIsUnmarked(
      devices: map<Address, Device>, leaders: seq<Address>, number: map<Address, nat>, a: Address, i: int)
    requires Numbered(devices, leaders, number) && a !in number
    ensures !Marks(devices, leaders, i, a)
  {
    if Marks(devices, leaders, i, a) { var k := HighestMark(devices, leaders, i, a); }
  }

  lemma {:induction false} HighestMark(devices: map<Address, Device>, leaders: seq<Address>, i: int, a: Address)
    returns (k: int)
    requires Marks(devices, leaders, i, a)
    ensures LastMark(devices, leaders, k, a)
    decreases |leaders| - i
  {
    if j :| j > i && Marks(devices, leaders, j, a) {
      k := HighestMark(devices, leaders, j, a);
    } else {
      k := i;
    }
  }

  lemma {:induction false} LeadersOf(devices: map<Address, Device>, order: seq<Address>) returns (leaders: seq<Address>)
    requires forall a | a in order :: a in devices
    ensures AreLeaders(devices, leaders) && Numbered(devices, leaders, LabelAll(devices, order).number)
    ensures LabelAll(devices, order).next == |leaders|
  {
    leaders := [];
    if order != [] {
      var init, a := order[..|order| - 1], order[|order| - 1];
      leaders := LeadersOf(devices, init);
      var l := LabelAll(devices, init);
      if a !in l.number {
        NumberedOneMore(devices, leaders, l, a);
        StillLeaders(devices, leaders, l.number, a);
        leaders := leaders + [a];
      }
    }
  }

  /** The labels of the numbers in decimal, every device having one. */
  ghost predicate LabelledBy(topo: Pcitopo, leaders: seq<Address>, numaMap: map<Address, string>) {
    && AreLeaders(topo.devices, leaders)
    && (forall a | a in topo.devices :: a in numaMap)
    && (forall x :: x in numaMap <==> exists i :: LastMark(topo.devices, leaders, i, x))
    && forall i: nat, x | LastMark(topo.devices, leaders, i, x) :: x in numaMap && numaMap[x] == Itoa(i)
  }

  /** Whatever order the generation took, some sequence of leaders explains its labels. */
  lemma LabelsComeFromLeaders(topo: Pcitopo, numaMap: map<Address, string>) returns (leaders: seq<Address>)
    requires LabelsInSomeOrder(topo, numaMap)
    ensures LabelledBy(topo, leaders, numaMap)
  {
    var order :| LabelsInOrder(topo, numaMap, order);
    leaders := LeadersOf(topo.devices, order);
    OrderElements(order, topo.devices.Keys);
    forall a | a in topo.devices ensures a in numaMap {
      assert a in order;
      VisitedHasLabel(topo.devices, order, a);
    }
  }
}
