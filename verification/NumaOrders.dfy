/** For which topologies the greedy NUMA labelling agrees with tier 0 in every iteration order, one-sided peer
    entries included. Within a group only the last device that took a number counts: the labels agree exactly when
    it reaches the whole group, since it overwrites the label of every device it lists. */
module NumaOrders {
  import opened Addresses
  import opened Decimal
  import opened NumaLabels
  import opened PeerGraph
  import opened TierGroups

  type Devices = map<Address, Device>

  /** x is the device a or in its peers_0 map. */
  ghost predicate Reaches(devices: Devices, a: Address, x: Address) {
    a in devices && x in devices && (x == a || x in Peer0(devices, a))
  }

  /** Two PF devices of one tier-0 group. */
  ghost predicate Together(devices: Devices, tier0: map<Address, Address>, a: Address, x: Address) {
    a in devices && x in devices && a in tier0 && x in tier0 && tier0[a] == tier0[x]
  }

  ghost predicate PeersStay(devices: Devices, tier0: map<Address, Address>) {
    && devices.Keys <= tier0.Keys
    && forall a, x {:trigger Reaches(devices, a, x)} :: Reaches(devices, a, x) ==> Together(devices, tier0, a, x)
  }

  ghost predicate ReachesGroup(devices: Devices, tier0: map<Address, Address>, a: Address) {
    forall x {:trigger Together(devices, tier0, a, x)} :: Together(devices, tier0, a, x) ==> Reaches(devices, a, x)
  }

  ghost predicate Covered(devices: Devices, ls: seq<Address>, x: Address) {
    exists a :: a in ls && Reaches(devices, a, x)
  }

  /** Each device of the sequence is still without a number when its turn comes. */
  ghost predicate TakesTurns(devices: Devices, ls: seq<Address>)
    decreases |ls|
  {
    ls == [] || (TakesTurns(devices, ls[..|ls| - 1]) && !Covered(devices, ls[..|ls| - 1], ls[|ls| - 1]))
  }

  /** Devices that take a number one after the other and together label the whole group of a, none of which reaches
      it alone. */
  ghost predicate Patchwork(devices: Devices, tier0: map<Address, Address>, ls: seq<Address>, a: Address) {
    && a in devices && TakesTurns(devices, ls)
    && (forall x | x in ls :: Together(devices, tier0, a, x) && !ReachesGroup(devices, tier0, x))
    && forall x {:trigger Together(devices, tier0, a, x)} :: Together(devices, tier0, a, x) ==> Covered(devices, ls, x)
  }

  /** The devices of a's group that take a number, in the order in which they do. */
  ghost function Leaders(devices: Devices, tier0: map<Address, Address>, order: seq<Address>, a: Address): seq<Address>
    requires forall x | x in order :: x in devices
  {
    if order == [] then []
    else
      var init, x := order[..|order| - 1], order[|order| - 1];
      var ls := Leaders(devices, tier0, init, a);
      if Together(devices, tier0, a, x) && x !in LabelAll(devices, init).number then ls + [x] else ls
  }

  ghost predicate HasNumberOf(l: Labelling, a: Address, x: Address) {
    a in l.number && x in l.number && l.number[a] == l.number[x]
  }

  /** What the leaders of a group tell of its labels: they take turns, a device has a label when one of them reaches
      it, and it has the last one's number when the last one does. */
  ghost predicate GroupState(
      devices: Devices, tier0: map<Address, Address>, ls: seq<Address>, l: Labelling, a: Address)
  {
    && TakesTurns(devices, ls)
    && (forall x | x in ls :: Together(devices, tier0, a, x))
    && forall x {:trigger Together(devices, tier0, a, x)} :: Together(devices, tier0, a, x) ==>
         && (x in l.number <==> Covered(devices, ls, x))
         && (ls != [] && x in l.number ==> (HasNumberOf(l, ls[|ls| - 1], x) <==> Reaches(devices, ls[|ls| - 1], x)))
  }

  lemma CoveredByOneMore(devices: Devices, ls: seq<Address>, y: Address, x: Address)
    ensures Covered(devices, ls + [y], x) <==> Covered(devices, ls, x) || Reaches(devices, y, x)
  {
    if Reaches(devices, y, x) { assert y in ls + [y]; }
    if a :| a in ls && Reaches(devices, a, x) { assert a in ls + [y]; }
  }

  lemma LeaderStep(
      devices: Devices, tier0: map<Address, Address>, ls: seq<Address>, l: Labelling, a: Address, y: Address)
    requires GroupState(devices, tier0, ls, l, a) && y !in l.number && Together(devices, tier0, a, y)
    requires forall x | x in l.number :: l.number[x] < l.next
    ensures GroupState(devices, tier0, ls + [y], LabelOne(devices, l, y), a)
  {
    var m := LabelOne(devices, l, y);
    assert (ls + [y])[..|ls|] == ls;
    forall x | Together(devices, tier0, a, x)
      ensures x in m.number <==> Covered(devices, ls + [y], x)
      ensures x in m.number ==> (HasNumberOf(m, y, x) <==> Reaches(devices, y, x))
    {
      CoveredByOneMore(devices, ls, y, x);
    }
  }

  lemma OtherGroupStep(
      devices: Devices, tier0: map<Address, Address>, ls: seq<Address>, l: Labelling, a: Address, y: Address)
    requires GroupState(devices, tier0, ls, l, a) && PeersStay(devices, tier0)
    requires y in devices && !Together(devices, tier0, a, y)
    ensures GroupState(devices, tier0, ls, LabelOne(devices, l, y), a)
  {
    var m := LabelOne(devices, l, y);
    forall x | Together(devices, tier0, a, x)
      ensures (x in m.number <==> x in l.number) && (x in m.number ==> m.number[x] == l.number[x])
    {
      assert Reaches(devices, y, x) ==> Together(devices, tier0, y, x);
    }
    if ls != [] { assert ls[|ls| - 1] in ls; }
  }

  lemma {:induction false} LeadersTell(
      devices: Devices, tier0: map<Address, Address>, order: seq<Address>, a: Address)
    requires PeersStay(devices, tier0) && forall x | x in order :: x in devices
    ensures GroupState(devices, tier0, Leaders(devices, tier0, order, a), LabelAll(devices, order), a)
  {
    if order != [] {
      var init, y := order[..|order| - 1], order[|order| - 1];
      LeadersTell(devices, tier0, init, a);
      NumbersAreBelowNext(devices, init);
      if !Together(devices, tier0, a, y) {
        OtherGroupStep(devices, tier0, Leaders(devices, tier0, init, a), LabelAll(devices, init), a, y);
      } else if y !in LabelAll(devices, init).number {
        LeaderStep(devices, tier0, Leaders(devices, tier0, init, a), LabelAll(devices, init), a, y);
      }
    }
  }

  /** No number is used in two groups. */
  lemma {:induction false} GroupsKeepApart(
      devices: Devices, tier0: map<Address, Address>, order: seq<Address>, a: Address, b: Address)
    requires PeersStay(devices, tier0) && forall x | x in order :: x in devices
    requires a in devices && b in devices && !Together(devices, tier0, a, b)
    ensures !HasNumberOf(LabelAll(devices, order), a, b)
  {
    if order != [] {
      var init, y := order[..|order| - 1], order[|order| - 1];
      GroupsKeepApart(devices, tier0, init, a, b);
      NumbersAreBelowNext(devices, init);
      assert Reaches(devices, y, a) ==> Together(devices, tier0, y, a);
      assert Reaches(devices, y, b) ==> Together(devices, tier0, y, b);
    }
  }

  /** Once every device has a label, a group has one number if and only if its last leader reaches all of it. */
  lemma GroupAgreesIffLastReaches(devices: Devices, tier0: map<Address, Address>, order: seq<Address>, a: Address)
    requires PeersStay(devices, tier0) && IsOrderOf(order, devices.Keys) && a in devices
    requires forall x | x in order :: x in devices
    ensures var ls, l := Leaders(devices, tier0, order, a), LabelAll(devices, order);
            && ls != []
            && (forall x {:trigger Together(devices, tier0, a, x)} ::
                  Together(devices, tier0, a, x) ==> x in l.number && Covered(devices, ls, x))
            && (ReachesGroup(devices, tier0, ls[|ls| - 1]) <==>
                  forall x {:trigger Together(devices, tier0, a, x)} ::
                    Together(devices, tier0, a, x) ==> HasNumberOf(l, ls[|ls| - 1], x))
  {
    LeadersTell(devices, tier0, order, a);
    OrderElements(order, devices.Keys);
    var ls, l := Leaders(devices, tier0, order, a), LabelAll(devices, order);
    forall x | x in devices ensures x in l.number { VisitedHasLabel(devices, order, x); }
    assert Together(devices, tier0, a, a) && Covered(devices, ls, a);
    var last := ls[|ls| - 1];
    assert last in ls && Together(devices, tier0, a, last);
    forall x ensures Together(devices, tier0, a, x) <==> Together(devices, tier0, last, x) {}
  }

  /** A leader that reaches its whole group is the last one. */
  lemma {:induction false} OnlyTheLastReaches(
      devices: Devices, tier0: map<Address, Address>, ls: seq<Address>, a: Address)
    requires ls != [] && TakesTurns(devices, ls) && forall x | x in ls :: Together(devices, tier0, a, x)
    requires !ReachesGroup(devices, tier0, ls[|ls| - 1])
    ensures forall x | x in ls :: !ReachesGroup(devices, tier0, x)
  {
    var init, last := ls[..|ls| - 1], ls[|ls| - 1];
    assert last in ls;
    forall x | x in init ensures !ReachesGroup(devices, tier0, x) {
      assert x in ls && Together(devices, tier0, x, last);
      assert !Reaches(devices, x, last);
    }
  }

  /** An order that disagrees contains a patchwork. */
  lemma DisagreementIsPatchwork(topo: Pcitopo, tier0: map<Address, Address>, order: seq<Address>)
    returns (ls: seq<Address>, a: Address)
    requires PeersStay(topo.devices, tier0) && !AgreesFor(topo, tier0, order)
    ensures Patchwork(topo.devices, tier0, ls, a)
  {
    var devices, l := topo.devices, LabelAll(topo.devices, order);
    var numa := Render(l.number);
    OrderElements(order, devices.Keys);
    forall x | x in devices ensures x in l.number { VisitedHasLabel(devices, order, x); }
    var x, y :| x in devices && y in devices && (numa[x] == numa[y] <==> tier0[x] != tier0[y]);
    if numa[x] == numa[y] {
      ItoaIsInjective(l.number[x], l.number[y]);
      GroupsKeepApart(devices, tier0, order, x, y);
      assert false;
    }
    a := x;
    ls := Leaders(devices, tier0, order, a);
    GroupAgreesIffLastReaches(devices, tier0, order, a);
    assert Together(devices, tier0, a, x) && Together(devices, tier0, a, y);
    LeadersTell(devices, tier0, order, a);
    OnlyTheLastReaches(devices, tier0, ls, a);
  }

  /** Devices that take turns are leaders when they come first. */
  lemma {:induction false} TurnsLead(devices: Devices, tier0: map<Address, Address>, ls: seq<Address>, a: Address)
    requires PeersStay(devices, tier0) && TakesTurns(devices, ls)
    requires forall x | x in ls :: x in devices
    requires forall x | x in ls :: Together(devices, tier0, a, x)
    ensures Leaders(devices, tier0, ls, a) == ls
  {
    if ls != [] {
      var init, y := ls[..|ls| - 1], ls[|ls| - 1];
      TurnsLead(devices, tier0, init, a);
      LeadersTell(devices, tier0, init, a);
      assert y in ls && Together(devices, tier0, a, y);
      assert ls == init + [y];
    }
  }

  /** Nobody follows the leaders of a group once all of it is labelled. */
  lemma {:induction false} NobodyFollows(
      devices: Devices, tier0: map<Address, Address>, start: seq<Address>, rest: seq<Address>, a: Address)
    requires PeersStay(devices, tier0) && forall x | x in start + rest :: x in devices
    requires forall x | x in start :: x in devices
    requires forall x {:trigger Together(devices, tier0, a, x)} ::
               Together(devices, tier0, a, x) ==> Covered(devices, Leaders(devices, tier0, start, a), x)
    ensures Leaders(devices, tier0, start + rest, a) == Leaders(devices, tier0, start, a)
    decreases |rest|
  {
    if rest == [] {
      assert start + rest == start;
    } else {
      var init, y := rest[..|rest| - 1], rest[|rest| - 1];
      assert (start + rest)[..|start + rest| - 1] == start + init;
      NobodyFollows(devices, tier0, start, init, a);
      LeadersTell(devices, tier0, start + init, a);
      assert (start + rest)[|start + rest| - 1] == y;
    }
  }

  /** A patchwork, walked first, gives an order that disagrees. */
  lemma PatchworkDisagrees(topo: Pcitopo, tier0: map<Address, Address>, ls: seq<Address>, a: Address)
    returns (order: seq<Address>)
    requires PeersStay(topo.devices, tier0) && Patchwork(topo.devices, tier0, ls, a)
    ensures !AgreesFor(topo, tier0, order)
  {
    var devices := topo.devices;
    var rest := SomeOrder(devices.Keys - Elements(ls));
    order := ls + rest;
    PatchworkIsOfDevices(devices, tier0, ls, a);
    StartIsOrder(devices, ls, rest);
    TurnsLead(devices, tier0, ls, a);
    NobodyFollows(devices, tier0, ls, rest, a);
    var x, y := PatchworkSplits(devices, tier0, ls, order, a);
    DisagreesAt(topo, tier0, order, x, y);
  }

  lemma PatchworkIsOfDevices(devices: Devices, tier0: map<Address, Address>, ls: seq<Address>, a: Address)
    requires Patchwork(devices, tier0, ls, a)
    ensures forall x | x in ls :: x in devices
  {
    forall x | x in ls ensures x in devices {
      assert Together(devices, tier0, a, x);
    }
  }

  /** Two devices of the group with different numbers. */
  lemma PatchworkSplits(
      devices: Devices, tier0: map<Address, Address>, ls: seq<Address>, order: seq<Address>, a: Address)
    returns (x: Address, y: Address)
    requires PeersStay(devices, tier0) && Patchwork(devices, tier0, ls, a)
    requires IsOrderOf(order, devices.Keys) && forall x | x in order :: x in devices
    requires Leaders(devices, tier0, order, a) == ls
    ensures Together(devices, tier0, x, y) && !HasNumberOf(LabelAll(devices, order), x, y)
  {
    GroupAgreesIffLastReaches(devices, tier0, order, a);
    x := ls[|ls| - 1];
    assert x in ls && !ReachesGroup(devices, tier0, x) && Together(devices, tier0, a, x);
    y :| Together(devices, tier0, a, y) && !HasNumberOf(LabelAll(devices, order), x, y);
  }

  lemma DisagreesAt(topo: Pcitopo, tier0: map<Address, Address>, order: seq<Address>, x: Address, y: Address)
    requires IsOrderOf(order, topo.devices.Keys) && forall z | z in order :: z in topo.devices
    requires Together(topo.devices, tier0, x, y) && !HasNumberOf(LabelAll(topo.devices, order), x, y)
    ensures !AgreesFor(topo, tier0, order)
  {
    var number := LabelAll(topo.devices, order).number;
    OrderElements(order, topo.devices.Keys);
    VisitedHasLabel(topo.devices, order, x);
    VisitedHasLabel(topo.devices, order, y);
    if Render(number)[x] == Render(number)[y] { ItoaIsInjective(number[x], number[y]); }
  }

  lemma StartIsOrder(devices: Devices, ls: seq<Address>, rest: seq<Address>)
    requires (forall x | x in ls :: x in devices) && TakesTurns(devices, ls)
    requires IsOrderOf(rest, devices.Keys - Elements(ls))
    ensures IsOrderOf(ls + rest, devices.Keys) && forall x | x in ls + rest :: x in devices
  {
    TurnsAreOnce(devices, ls);
    OrderOfParts(ls, rest, devices.Keys);
  }

  lemma OrderOfParts(ls: seq<Address>, rest: seq<Address>, keys: set<Address>)
    requires multiset(ls) == multiset(Elements(ls)) && Elements(ls) <= keys
    requires IsOrderOf(rest, keys - Elements(ls))
    ensures IsOrderOf(ls + rest, keys) && forall x :: x in ls + rest <==> x in keys
  {
    MultisetOfParts(keys, Elements(ls));
    assert multiset(ls + rest) == multiset(ls) + multiset(rest);
    OrderElements(ls + rest, keys);
  }

  lemma MultisetOfParts(all: set<Address>, part: set<Address>)
    requires part <= all
    ensures multiset(all) == multiset(part) + multiset(all - part)
  {
    assert all == part + (all - part);
  }

  lemma {:induction false} TurnsAreOnce(devices: Devices, ls: seq<Address>)
    requires (forall x | x in ls :: x in devices) && TakesTurns(devices, ls)
    ensures multiset(ls) == multiset(Elements(ls))
  {
    if ls != [] {
      var init, y := ls[..|ls| - 1], ls[|ls| - 1];
      TurnsAreOnce(devices, init);
      assert ls == init + [y];
      assert y in ls;
      assert y in devices && Reaches(devices, y, y);
      assert y in init ==> Covered(devices, init, y);
      assert Elements(ls) == Elements(init) + {y};
    }
  }

  /** The exact condition for all topologies: every order agrees with tier 0 if and only if no group can be labelled
      piecewise by devices none of which reaches the whole group. */
  lemma LabellingAgreesIffNoPatchwork(topo: Pcitopo, tier0: map<Address, Address>)
    requires IsTier0(topo, tier0)
    ensures (forall order :: AgreesFor(topo, tier0, order)) <==>
            !exists ls, a :: Patchwork(topo.devices, tier0, ls, a)
  {
    TierZeroPeersStay(topo, tier0);
    AgreesIffNoPatchwork(topo, tier0);
  }

  lemma TierZeroPeersStay(topo: Pcitopo, tier0: map<Address, Address>)
    requires IsTier0(topo, tier0)
    ensures PeersStay(topo.devices, tier0)
  {
    assert topo.devices.Keys <= AdjacencyOf(topo).Keys;
    forall a, x | Reaches(topo.devices, a, x) ensures Together(topo.devices, tier0, a, x) {
      if x != a { PeersShareTier0(topo, tier0, a, x); }
    }
  }

  lemma AgreesIffNoPatchwork(topo: Pcitopo, tier0: map<Address, Address>)
    requires PeersStay(topo.devices, tier0)
    ensures (forall order :: AgreesFor(topo, tier0, order)) <==>
            !exists ls, a :: Patchwork(topo.devices, tier0, ls, a)
  {
    if order :| !AgreesFor(topo, tier0, order) {
      var ls, a := DisagreementIsPatchwork(topo, tier0, order);
    }
    if ls, a :| Patchwork(topo.devices, tier0, ls, a) {
      var order := PatchworkDisagrees(topo, tier0, ls, a);
    }
  }
}
