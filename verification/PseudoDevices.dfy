/** Pseudo device discovery: the PF and VF devices of a topology plus the two VFs each PF should have, and
    the name-keyed table of allocatable devices made from such a list. */
module PseudoDevices {
  import opened AddressLists
  import opened Addresses
  import opened Decimal
  import opened DeviceTypes
  import opened TierGroups
  import opened Wrappers

  datatype PciDevice = PciDevice(address: Address, isVf: bool, numa: int)

  /** strings.LastIndex for one character. */
  function LastIndex(s: string, c: char): (i: int)
    ensures -1 <= i < |s|
    ensures i >= 0 ==> s[i] == c
    ensures forall j | i < j < |s| :: s[j] != c
  {
    if s == [] then -1
    else if s[|s| - 1] == c then |s| - 1
    else LastIndex(s[..|s| - 1], c)
  }

  /** The function number of an address, or -1. */
  function GetPCIFunctionIndex(a: Address): int {
    var dot := LastIndex(a, '.');
    if dot < 0 || dot == |a| - 1 then -1
    else
      match Atoi(a[dot + 1..])
      case Some(n) => n
      case None => -1
  }

  function LookupNuma(numa: map<Address, string>, a: Address): int {
    if a in numa then
      match Atoi(numa[a])
      case Some(n) => n
      case None => 0
    else 0
  }

  /** The number that a text reads as, when there is one and it fits 64 bits. */
  ghost predicate ReadsAs(s: string, n: int) {
    Reads(s, n) && -0x8000_0000_0000_0000 <= n <= 0x7fff_ffff_ffff_ffff
  }

  /** The lookup gives the number of the label, and 0 without a label or with one that is no number. */
  lemma LookupGivesLabel(numa: map<Address, string>, a: Address)
    ensures a !in numa ==> LookupNuma(numa, a) == 0
    ensures a in numa ==> forall n | ReadsAs(numa[a], n) :: LookupNuma(numa, a) == n
    ensures a in numa && (forall n :: !ReadsAs(numa[a], n)) ==> LookupNuma(numa, a) == 0
  {
    if a in numa {
      forall n ensures ReadsAs(numa[a], n) <==> Atoi(numa[a]) == Some(n) { AtoiReads(numa[a], n); }
    }
  }

  lemma LastDot(a: Address, base: string, rest: string)
    requires a == base + "." + rest && '.' !in rest
    ensures LastIndex(a, '.') == |base| && a[..|base|] == base && a[|base| + 1..] == rest
  {
    assert a[..|base|] == base && a[|base| + 1..] == rest && a[|base|] == '.';
    forall j | |base| < j < |a| ensures a[j] != '.' {
      assert a[|base| + 1..][j - |base| - 1] == a[j];
      assert rest[j - |base| - 1] in rest;
    }
    DotAt(a, |base|);
  }

  lemma DotAt(a: Address, dot: nat)
    requires dot < |a| && a[dot] == '.' && forall j | dot < j < |a| :: a[j] != '.'
    ensures LastIndex(a, '.') == dot
  {
  }

  lemma NoDot(a: Address)
    requires '.' !in a
    ensures LastIndex(a, '.') == -1
  {
  }

  /** The function index is the number after the last dot, and -1 when there is no dot or no number. */
  lemma FunctionIndexIs(base: string, rest: string)
    requires '.' !in rest
    ensures forall n | ReadsAs(rest, n) :: GetPCIFunctionIndex(base + "." + rest) == n
    ensures (forall n :: !ReadsAs(rest, n)) ==> GetPCIFunctionIndex(base + "." + rest) == -1
    ensures GetPCIFunctionIndex(rest) == -1
  {
    LastDot(base + "." + rest, base, rest);
    NoDot(rest);
    forall n ensures ReadsAs(rest, n) <==> Atoi(rest) == Some(n) { AtoiReads(rest, n); }
  }

  /** The label that the NUMA generation wrote is the number that the lookup returns. */
  lemma LookupReadsLabel(numa: map<Address, string>, a: Address, n: nat)
    requires a in numa && numa[a] == Itoa(n) && n <= MAX_INT
    ensures LookupNuma(numa, a) == n
  {
    AtoiOfItoa(n);
  }

  /** The addresses of the two VFs of a PF: its address with function 1 and 2; none without a dot. */
  function Siblings(pf: Address): (s: seq<Address>)
    ensures |s| == 2 ==> s[0] != s[1]
  {
    var dot := LastIndex(pf, '.');
    if dot < 0 then []
    else
      assert (pf[..dot] + ".1")[dot + 1] != (pf[..dot] + ".2")[dot + 1];
      [pf[..dot] + ".1", pf[..dot] + ".2"]
  }

  /** The siblings have the PF's address up to its last dot, and then 1 or 2; without a dot there are none. */
  lemma SiblingsAre(base: string, rest: string)
    requires '.' !in rest
    ensures Siblings(base + "." + rest) == [base + ".1", base + ".2"]
    ensures Siblings(rest) == []
  {
    LastDot(base + "." + rest, base, rest);
    NoDot(rest);
  }

  lemma SiblingsHaveFunctions1And2(pf: Address)
    requires Siblings(pf) != []
    ensures GetPCIFunctionIndex(Siblings(pf)[0]) == 1 && GetPCIFunctionIndex(Siblings(pf)[1]) == 2
  {
    var base := pf[..LastIndex(pf, '.')];
    assert Itoa(1) == "1" && Itoa(2) == "2";
    FunctionAfterDot(base, base + ".1", 1);
    FunctionAfterDot(base, base + ".2", 2);
  }

  lemma FunctionAfterDot(base: string, a: Address, k: nat)
    requires k < 10 && a == base + "." + Itoa(k) && |Itoa(k)| == 1
    ensures GetPCIFunctionIndex(a) == k
  {
    var dot := |base|;
    assert a[dot] == '.' && a[dot + 1..] == Itoa(k) && a[dot + 1] == Itoa(k)[0];
    DotIsLast(a, dot);
    AtoiOfItoa(k);
  }

  lemma DotIsLast(a: Address, dot: nat)
    requires dot + 2 == |a| && a[dot] == '.' && IsDigit(a[dot + 1])
    ensures LastIndex(a, '.') == dot
  {
  }

  /** The siblings of a PF that the topology does not list as VFs. */
  ghost function Missing(pf: Address, vfs: set<Address>): seq<Address> {
    var s := Siblings(pf);
    if s == [] then [] else (if s[0] in vfs then [] else [s[0]]) + (if s[1] in vfs then [] else [s[1]])
  }

  ghost function MissingParts(pfs: seq<Address>, vfs: set<Address>): seq<seq<Address>> {
    seq(|pfs|, i requires 0 <= i < |pfs| => Missing(pfs[i], vfs))
  }

  ghost function AllMissing(pfs: seq<Address>, vfs: set<Address>): seq<Address> {
    Flatten(MissingParts(pfs, vfs))
  }

  lemma AllMissingOneMore(pfs: seq<Address>, i: nat, vfs: set<Address>)
    requires i < |pfs|
    ensures AllMissing(pfs[..i + 1], vfs) == AllMissing(pfs[..i], vfs) + Missing(pfs[i], vfs)
  {
    var parts := MissingParts(pfs[..i + 1], vfs);
    assert parts[..i] == MissingParts(pfs[..i], vfs);
  }

  ghost function AddressesOf(devices: seq<PciDevice>): seq<Address> {
    seq(|devices|, i requires 0 <= i < |devices| => devices[i].address)
  }

  method AnyOrder(keys: set<Address>) returns (order: seq<Address>)
    ensures Walks(order, keys)
  {
    order := [];
    var rest := keys;
    while rest != {}
      invariant rest <= keys && Walks(order, keys - rest)
      decreases rest
    {
      var a :| a in rest;
      order := order + [a];
      rest := rest - {a};
    }
  }

  /** Three walks: over the PFs, over the VFs, and over the PFs again for their missing VFs (not on s390x). A
      listed device has its own NUMA number, a generated VF that of its PF. */
  ghost predicate ListsInOrder(
      devices: seq<PciDevice>, topo: Pcitopo, numa: map<Address, string>, s390x: bool,
      pfs: seq<Address>, vfs: seq<Address>, again: seq<Address>)
  {
    && Walks(pfs, topo.devices.Keys) && Walks(vfs, topo.vfDevices.Keys) && Walks(again, topo.devices.Keys)
    && AddressesOf(devices) == pfs + vfs + (if s390x then [] else AllMissing(again, topo.vfDevices.Keys))
    && (forall i | 0 <= i < |pfs| + |vfs| && i < |devices| ::
          devices[i] == PciDevice(devices[i].address, i >= |pfs|, LookupNuma(numa, devices[i].address)))
    && forall i | |pfs| + |vfs| <= i < |devices| :: IsSiblingDevice(topo, numa, devices[i])
  }

  ghost predicate Lists(devices: seq<PciDevice>, topo: Pcitopo, numa: map<Address, string>, s390x: bool) {
    exists pfs, vfs, again :: ListsInOrder(devices, topo, numa, s390x, pfs, vfs, again)
  }

  method GeneratePseudoDevices(topo: Pcitopo, numa: map<Address, string>, s390x: bool) returns (devices: seq<PciDevice>)
    ensures Lists(devices, topo, numa, s390x)
  {
    var pfOrder := AnyOrder(topo.devices.Keys);
    var pfDevices := GenerateEach(pfOrder, false, numa);
    var vfOrder := AnyOrder(topo.vfDevices.Keys);
    var vfDevices := GenerateEach(vfOrder, true, numa);
    devices := pfDevices + vfDevices;
    assert AddressesOf(devices) == pfOrder + vfOrder;
    var pfOrder2 := AnyOrder(topo.devices.Keys);
    if s390x {
      assert AddressesOf(devices) == pfOrder + vfOrder + [];
    } else {
      var extra := GenerateMissing(topo, numa, pfOrder2);
      assert AddressesOf(devices + extra) == AddressesOf(devices) + AddressesOf(extra);
      devices := devices + extra;
    }
    assert ListsInOrder(devices, topo, numa, s390x, pfOrder, vfOrder, pfOrder2);
  }

  /** One pseudo device per address, on its own NUMA node. */
  method GenerateEach(order: seq<Address>, isVf: bool, numa: map<Address, string>) returns (devices: seq<PciDevice>)
    ensures AddressesOf(devices) == order
    ensures forall i | 0 <= i < |devices| :: devices[i] == PciDevice(order[i], isVf, LookupNuma(numa, order[i]))
  {
    devices := [];
    for i := 0 to |order|
      invariant |devices| == i
      invariant forall k | 0 <= k < i :: devices[k] == PciDevice(order[k], isVf, LookupNuma(numa, order[k]))
    {
      devices := devices + [PciDevice(order[i], isVf, LookupNuma(numa, order[i]))];
    }
    assert AddressesOf(devices) == order;
  }

  /** A VF generated for some PF, on that PF's NUMA node. */
  ghost predicate IsSiblingDevice(topo: Pcitopo, numa: map<Address, string>, d: PciDevice) {
    d.isVf && exists pf :: pf in topo.devices && d.address in Siblings(pf) && d.numa == LookupNuma(numa, pf)
  }

  method GenerateMissing(topo: Pcitopo, numa: map<Address, string>, order: seq<Address>) returns (extra: seq<PciDevice>)
    requires forall a | a in order :: a in topo.devices
    ensures AddressesOf(extra) == AllMissing(order, topo.vfDevices.Keys)
    ensures forall i | 0 <= i < |extra| :: IsSiblingDevice(topo, numa, extra[i])
  {
    extra := [];
    for i := 0 to |order|
      invariant AddressesOf(extra) == AllMissing(order[..i], topo.vfDevices.Keys)
      invariant forall i | 0 <= i < |extra| :: IsSiblingDevice(topo, numa, extra[i])
    {
      AllMissingOneMore(order, i, topo.vfDevices.Keys);
      extra := GenerateMissingOf(topo, numa, order[i], extra);
    }
    assert order[..|order|] == order;
  }

  /** The inner loop over the function numbers 1 and 2. */
  method GenerateMissingOf(topo: Pcitopo, numa: map<Address, string>, pfAddr: Address, before: seq<PciDevice>)
    returns (extra: seq<PciDevice>)
    requires pfAddr in topo.devices && forall i | 0 <= i < |before| :: IsSiblingDevice(topo, numa, before[i])
    ensures AddressesOf(extra) == AddressesOf(before) + Missing(pfAddr, topo.vfDevices.Keys)
    ensures forall i | 0 <= i < |extra| :: IsSiblingDevice(topo, numa, extra[i])
  {
    extra := before;
    var siblings := Siblings(pfAddr);
    if siblings == [] {
      return;
    }
    ghost var done: seq<Address> := [];
    for k := 0 to 2
      invariant AddressesOf(extra) == AddressesOf(before) + done
      invariant done == (if k > 0 && siblings[0] !in topo.vfDevices then [siblings[0]] else [])
                        + (if k > 1 && siblings[1] !in topo.vfDevices then [siblings[1]] else [])
      invariant forall i | 0 <= i < |extra| :: IsSiblingDevice(topo, numa, extra[i])
    {
      if siblings[k] !in topo.vfDevices {
        var d := PciDevice(siblings[k], true, LookupNuma(numa, pfAddr));
        assert AddressesOf(extra + [d]) == AddressesOf(extra) + [siblings[k]];
        assert d.address in Siblings(pfAddr);
        extra := extra + [d];
        done := done + [siblings[k]];
      }
    }
  }

  // ----- No repeats -----

  lemma MissingOf(again: seq<Address>, pfSet: set<Address>, vfSet: set<Address>, a: Address)
    requires Walks(again, pfSet)
    ensures a in AllMissing(again, vfSet) <==> exists pf :: pf in pfSet && a in Missing(pf, vfSet)
  {
    var parts := MissingParts(again, vfSet);
    InFlatten(parts, a);
    if i :| InPart(parts, i, a) {
      assert again[i] in pfSet && parts[i] == Missing(again[i], vfSet);
    }
    if pf :| pf in pfSet && a in Missing(pf, vfSet) {
      assert pf in again;
      var i :| 0 <= i < |again| && again[i] == pf;
      assert InPart(parts, i, a);
    }
  }

  /** The generated list covers the PFs, the VFs and both siblings of every PF, and nothing else. */
  lemma ListCovers(
      pfs: seq<Address>, vfs: seq<Address>, again: seq<Address>, pfSet: set<Address>, vfSet: set<Address>, a: Address)
    requires Walks(pfs, pfSet) && Walks(vfs, vfSet) && Walks(again, pfSet)
    ensures a in pfs + vfs + AllMissing(again, vfSet) <==>
              a in pfSet || a in vfSet || exists pf :: pf in pfSet && a in Siblings(pf)
  {
    MissingOf(again, pfSet, vfSet, a);
    forall pf ensures a in Siblings(pf) ==> a in vfSet || a in Missing(pf, vfSet)
              ensures a in Missing(pf, vfSet) ==> a in Siblings(pf)
    {
    }
  }

  /** What makes an address appear twice: a PF that is also a VF, a generated VF that is also a PF, or two PFs
      that generate the same VF. */
  ghost predicate NoClash(pfs: set<Address>, vfs: set<Address>) {
    pfs !! vfs && MissingAreNoPfs(pfs, vfs) && MissingDiffer(pfs, vfs)
  }

  ghost predicate MissingAreNoPfs(pfs: set<Address>, vfs: set<Address>) {
    forall pf, a | pf in pfs && a in Missing(pf, vfs) :: a !in pfs
  }

  ghost function MissingMap(pfs: set<Address>, vfs: set<Address>): map<Address, seq<Address>> {
    map pf | pf in pfs :: Missing(pf, vfs)
  }

  ghost predicate MissingDiffer(pfs: set<Address>, vfs: set<Address>) {
    forall p, q, a | Shares(MissingMap(pfs, vfs), p, q, a) :: p == q
  }

  /** The exact condition: the list repeats no address if and only if no two sources give the same one. */
  lemma ListRepeatsNothingIffNoClash(
      pfs: seq<Address>, vfs: seq<Address>, again: seq<Address>, pfSet: set<Address>, vfSet: set<Address>)
    requires Walks(pfs, pfSet) && Walks(vfs, vfSet) && Walks(again, pfSet)
    ensures NoRepeats(pfs + vfs + AllMissing(again, vfSet)) <==> NoClash(pfSet, vfSet)
  {
    RepeatsOfSum(pfs, vfs);
    RepeatsOfSum(pfs + vfs, AllMissing(again, vfSet));
    WalksApart(pfs, vfs, pfSet, vfSet);
    MissingApart(pfs, vfs, again, pfSet, vfSet);
    MissingRepeats(again, pfSet, vfSet);
  }

  lemma MissingRepeats(again: seq<Address>, pfSet: set<Address>, vfSet: set<Address>)
    requires Walks(again, pfSet)
    ensures NoRepeats(AllMissing(again, vfSet)) <==> MissingDiffer(pfSet, vfSet)
  {
    var parts := MissingParts(again, vfSet);
    forall i | 0 <= i < |parts| ensures NoRepeats(parts[i]) {
      MissingNoRepeats(again[i], vfSet);
    }
    FlattenRepeats(parts);
    PartsOfWalk(MissingMap(pfSet, vfSet), again, parts);
  }

  lemma MissingNoRepeats(pf: Address, vfs: set<Address>)
    ensures NoRepeats(Missing(pf, vfs))
  {
  }

  lemma WalksApart(pfs: seq<Address>, vfs: seq<Address>, pfSet: set<Address>, vfSet: set<Address>)
    requires Walks(pfs, pfSet) && Walks(vfs, vfSet)
    ensures (forall a | a in pfs :: a !in vfs) <==> pfSet !! vfSet
  {
    if a :| a in pfSet && a in vfSet {
      assert a in pfs && a in vfs;
    }
  }

  lemma MissingApart(
      pfs: seq<Address>, vfs: seq<Address>, again: seq<Address>, pfSet: set<Address>, vfSet: set<Address>)
    requires Walks(pfs, pfSet) && Walks(vfs, vfSet) && Walks(again, pfSet)
    ensures (forall a | a in pfs + vfs :: a !in AllMissing(again, vfSet)) <==> MissingAreNoPfs(pfSet, vfSet)
  {
    if MissingAreNoPfs(pfSet, vfSet) {
      forall a | a in pfs + vfs ensures a !in AllMissing(again, vfSet) {
        MissingOf(again, pfSet, vfSet, a);
        assert a in pfs ==> a in pfSet;
        assert a in vfs ==> a in vfSet;
      }
    } else {
      var pf, a :| pf in pfSet && a in Missing(pf, vfSet) && a in pfSet;
      MissingOf(again, pfSet, vfSet, a);
      assert a in pfs;
    }
  }

  predicate IsHex(c: char) {
    '0' <= c <= '9' || 'a' <= c <= 'f' || 'A' <= c <= 'F'
  }

  predicate IsSeparator(a: Address, i: nat) {
    i + 2 == |a| || i + 5 == |a| || i + 8 == |a|
  }

  /** domain:bus:device.function in hexadecimal digits, the domain with four or more of them. */
  predicate IsCanonical(a: Address) {
    && |a| >= 12
    && a[|a| - 2] == '.' && a[|a| - 5] == ':' && a[|a| - 8] == ':'
    && forall i | 0 <= i < |a| && !IsSeparator(a, i) :: IsHex(a[i])
  }

  lemma CanonicalDot(a: Address)
    requires IsCanonical(a)
    ensures LastIndex(a, '.') == |a| - 2
  {
    assert !IsSeparator(a, |a| - 1);
    assert IsHex(a[|a| - 1]);
  }

  lemma MissingOfCanonical(pf: Address, vfs: set<Address>, a: Address)
    requires IsCanonical(pf) && a in Missing(pf, vfs)
    ensures |a| == |pf| && a[..|a| - 1] == pf[..|pf| - 1]
    ensures a[|a| - 1] == '1' || a[|a| - 1] == '2'
  {
    CanonicalDot(pf);
    assert a in Siblings(pf);
    assert pf[..|pf| - 1] == pf[..|pf| - 2] + ".";
  }

  /** Canonical addresses with every PF at function 0 and PF and VF keys apart never clash. */
  lemma CanonicalTopologiesDoNotClash(pfs: set<Address>, vfs: set<Address>)
    requires pfs !! vfs
    requires forall a | a in pfs :: IsCanonical(a) && a[|a| - 1] == '0'
    ensures NoClash(pfs, vfs)
  {
    forall pf, a | pf in pfs && a in Missing(pf, vfs) ensures a !in pfs {
      MissingOfCanonical(pf, vfs, a);
    }
    forall p, q, a | Shares(MissingMap(pfs, vfs), p, q, a) ensures p == q {
      OnePfPerMissing(p, q, vfs, a);
    }
  }

  lemma OnePfPerMissing(p: Address, q: Address, vfs: set<Address>, a: Address)
    requires IsCanonical(p) && p[|p| - 1] == '0' && IsCanonical(q) && q[|q| - 1] == '0'
    requires a in Missing(p, vfs) && a in Missing(q, vfs)
    ensures p == q
  {
    MissingOfCanonical(p, vfs, a);
    MissingOfCanonical(q, vfs, a);
    SameUpToLast(p, q);
  }

  // ----- Names and the allocatable table -----

  /** Colons and dots become dashes. */
  function PciAddressToDeviceName(a: Address): string {
    seq(|a|, i requires 0 <= i < |a| => if a[i] == ':' || a[i] == '.' then '-' else a[i])
  }

  /** A name has neither colon nor dot, and differs from the address only in having a dash in their places. */
  lemma NameReplacesSeparators(a: Address)
    ensures var name := PciAddressToDeviceName(a);
            && |name| == |a| && ':' !in name && '.' !in name
            && forall i | 0 <= i < |a| && name[i] != a[i] :: a[i] in [':', '.'] && name[i] == '-'
  {
  }

  /** Naming is injective on canonical addresses. */
  lemma NamingIsInjective(a: Address, b: Address)
    requires IsCanonical(a) && IsCanonical(b)
    requires PciAddressToDeviceName(a) == PciAddressToDeviceName(b)
    ensures a == b
  {
    var m, n := PciAddressToDeviceName(a), PciAddressToDeviceName(b);
    assert |m| == |a| && |n| == |b|;
    forall i | 0 <= i < |a| ensures a[i] == b[i] {
      assert m[i] == n[i];
      assert !IsSeparator(a, i) ==> IsHex(a[i]) && IsHex(b[i]);
    }
  }

  /** ... and not in general. */
  lemma NamingCollides()
    ensures "a:b" != "a.b" && PciAddressToDeviceName("a:b") == PciAddressToDeviceName("a.b")
  {
    assert "a:b"[1] != "a.b"[1];
  }

  datatype Entry = Entry(index: int, state: string, device: PciDevice)

  /** The table after the first n devices: under each name the last device that has it. */
  ghost predicate TabulatesUpTo(table: map<string, Entry>, devices: seq<PciDevice>, n: nat)
    requires n <= |devices|
  {
    && (forall i | 0 <= i < n :: PciAddressToDeviceName(devices[i].address) in table)
    && forall name | name in table ::
         var i := table[name].index;
         && 0 <= i < n && table[name] == Entry(i, ONLINE, devices[i])
         && PciAddressToDeviceName(devices[i].address) == name
         && forall j | i < j < n :: PciAddressToDeviceName(devices[j].address) != name
  }

  method NewAllocatableDevices(devices: seq<PciDevice>) returns (table: map<string, Entry>)
    ensures TabulatesUpTo(table, devices, |devices|)
  {
    table := map[];
    var index := 0;
    for i := 0 to |devices|
      invariant index == i && TabulatesUpTo(table, devices, i)
    {
      var name := PciAddressToDeviceName(devices[i].address);
      table := table[name := Entry(index, ONLINE, devices[i])];
      index := index + 1;
    }
  }

  /** With canonical addresses and no repeats the table has one entry per device, under its own name, and the
      indices are 0 .. n - 1, each once. */
  lemma TableHasEveryDeviceOnce(table: map<string, Entry>, devices: seq<PciDevice>)
    requires TabulatesUpTo(table, devices, |devices|)
    requires NoRepeats(AddressesOf(devices))
    requires forall i | 0 <= i < |devices| :: IsCanonical(devices[i].address)
    ensures |table| == |devices|
    ensures forall i | 0 <= i < |devices| ::
              var name := PciAddressToDeviceName(devices[i].address);
              name in table && table[name] == Entry(i, ONLINE, devices[i])
  {
    forall i | 0 <= i < |devices|
      ensures PciAddressToDeviceName(devices[i].address) in table
      ensures table[PciAddressToDeviceName(devices[i].address)].index == i
    {
      var name := PciAddressToDeviceName(devices[i].address);
      var k := table[name].index;
      NamingIsInjective(devices[i].address, devices[k].address);
      assert AddressesOf(devices)[i] == AddressesOf(devices)[k];
    }
    assert table.Keys == NamesOf(devices, |devices|) by {
      forall name | name in table ensures name in NamesOf(devices, |devices|) {
        var k := table[name].index;
        assert PciAddressToDeviceName(devices[k].address) == name;
      }
    }
    NamesCount(devices, |devices|);
  }

  ghost function NamesOf(devices: seq<PciDevice>, n: nat): set<string>
    requires n <= |devices|
  {
    set i | 0 <= i < n :: PciAddressToDeviceName(devices[i].address)
  }

  lemma {:induction false} NamesCount(devices: seq<PciDevice>, n: nat)
    requires n <= |devices|
    requires forall i, j | 0 <= i < j < n ::
               PciAddressToDeviceName(devices[i].address) != PciAddressToDeviceName(devices[j].address)
    ensures |NamesOf(devices, n)| == n
  {
    if n > 0 {
      NamesCount(devices, n - 1);
      var name := PciAddressToDeviceName(devices[n - 1].address);
      NamesOneMore(devices, n);
      assert name !in NamesOf(devices, n - 1);
    }
  }

  lemma NamesOneMore(devices: seq<PciDevice>, n: nat)
    requires 0 < n <= |devices|
    ensures NamesOf(devices, n) == NamesOf(devices, n - 1) + {PciAddressToDeviceName(devices[n - 1].address)}
  {
  }

  /** The addresses that a topology is to offer: its PFs, its VFs, and functions 1 and 2 of every PF. */
  ghost predicate IsOffered(topo: Pcitopo, a: Address) {
    a in topo.devices || a in topo.vfDevices || exists pf :: pf in topo.devices && a in Siblings(pf)
  }

  lemma SiblingsAreCanonical(pf: Address, a: Address)
    requires IsCanonical(pf) && a in Siblings(pf)
    ensures IsCanonical(a)
  {
    CanonicalDot(pf);
    assert forall i | 0 <= i < |pf| - 1 :: a[i] == pf[i];
    assert |a| == |pf| && (a[|a| - 1] == '1' || a[|a| - 1] == '2');
    forall i: nat | i < |a| && !IsSeparator(a, i) ensures IsHex(a[i]) {
      assert i < |pf| - 1 ==> !IsSeparator(pf, i) && IsHex(pf[i]);
    }
  }

  lemma ListedAddresses(devices: seq<PciDevice>, topo: Pcitopo, numa: map<Address, string>)
    requires Lists(devices, topo, numa, false) && topo.devices.Keys !! topo.vfDevices.Keys
    requires forall a | a in topo.devices :: IsCanonical(a) && a[|a| - 1] == '0'
    ensures NoRepeats(AddressesOf(devices)) && forall a :: a in AddressesOf(devices) <==> IsOffered(topo, a)
  {
    var pfs, vfs, again :| ListsInOrder(devices, topo, numa, false, pfs, vfs, again);
    CanonicalTopologiesDoNotClash(topo.devices.Keys, topo.vfDevices.Keys);
    ListRepeatsNothingIffNoClash(pfs, vfs, again, topo.devices.Keys, topo.vfDevices.Keys);
    forall a ensures a in AddressesOf(devices) <==> IsOffered(topo, a) {
      ListCovers(pfs, vfs, again, topo.devices.Keys, topo.vfDevices.Keys, a);
    }
  }

  lemma ListedAddressesAreCanonical(devices: seq<PciDevice>, topo: Pcitopo)
    requires forall a :: a in AddressesOf(devices) ==> IsOffered(topo, a)
    requires forall a | a in topo.devices :: IsCanonical(a)
    requires forall a | a in topo.vfDevices :: IsCanonical(a)
    ensures forall i | 0 <= i < |devices| :: IsCanonical(devices[i].address)
  {
    forall i | 0 <= i < |devices| ensures IsCanonical(devices[i].address) {
      var a := devices[i].address;
      assert AddressesOf(devices)[i] == a;
      assert IsOffered(topo, a) by { assert a in AddressesOf(devices); }
      if a !in topo.devices && a !in topo.vfDevices {
        var pf :| pf in topo.devices && a in Siblings(pf);
        SiblingsAreCanonical(pf, a);
      }
    }
  }

  /** Each listed address, and no other, has its entry, under its own name; indices are 0 .. |table| - 1. */
  ghost predicate IndexesExactly(table: map<string, Entry>, addresses: seq<Address>) {
    && |table| == |addresses|
    && (forall a | a in addresses ::
          PciAddressToDeviceName(a) in table && table[PciAddressToDeviceName(a)].device.address == a)
    && (forall name | name in table ::
          && table[name].device.address in addresses && name == PciAddressToDeviceName(table[name].device.address)
          && 0 <= table[name].index < |table|)
    && forall m, n | m in table && n in table && table[m].index == table[n].index :: m == n
  }

  lemma TableIndexesAddresses(table: map<string, Entry>, devices: seq<PciDevice>)
    requires TabulatesUpTo(table, devices, |devices|)
    requires NoRepeats(AddressesOf(devices))
    requires forall i | 0 <= i < |devices| :: IsCanonical(devices[i].address)
    ensures IndexesExactly(table, AddressesOf(devices))
  {
    var addresses := AddressesOf(devices);
    TableHasEveryDeviceOnce(table, devices);
    forall a | a in addresses
      ensures PciAddressToDeviceName(a) in table && table[PciAddressToDeviceName(a)].device.address == a
    {
      var i :| 0 <= i < |addresses| && addresses[i] == a;
      assert devices[i].address == a;
    }
    forall name | name in table ensures table[name].device.address in addresses {
      assert addresses[table[name].index] == table[name].device.address;
    }
  }

  /** What each listed device is: a listed PF is no VF, a listed or generated VF is one; a listed device has its own
      NUMA number, a generated one that of a PF whose sibling it is. */
  ghost predicate IsListedRightly(topo: Pcitopo, numa: map<Address, string>, d: PciDevice) {
    if d.address in topo.devices then !d.isVf && d.numa == LookupNuma(numa, d.address)
    else if d.address in topo.vfDevices then d.isVf && d.numa == LookupNuma(numa, d.address)
    else
      && d.isVf
      && exists pf :: pf in topo.devices && d.address in Siblings(pf) && d.numa == LookupNuma(numa, pf)
  }

  lemma ListedDevicesAreRight(
      devices: seq<PciDevice>, topo: Pcitopo, numa: map<Address, string>, s390x: bool, i: nat)
    requires Lists(devices, topo, numa, s390x) && NoClash(topo.devices.Keys, topo.vfDevices.Keys) && i < |devices|
    ensures IsListedRightly(topo, numa, devices[i])
  {
    var pfs, vfs, again :| ListsInOrder(devices, topo, numa, s390x, pfs, vfs, again);
    var addresses := AddressesOf(devices);
    assert addresses[i] == devices[i].address;
    if i < |pfs| {
      assert addresses[i] == pfs[i] && pfs[i] in pfs;
    } else if i < |pfs| + |vfs| {
      assert addresses[i] == vfs[i - |pfs|] && vfs[i - |pfs|] in vfs;
    } else {
      GeneratedIsMissing(devices, topo, numa, pfs, vfs, again, i);
    }
  }

  lemma GeneratedIsMissing(
      devices: seq<PciDevice>, topo: Pcitopo, numa: map<Address, string>,
      pfs: seq<Address>, vfs: seq<Address>, again: seq<Address>, i: nat)
    requires ListsInOrder(devices, topo, numa, false, pfs, vfs, again)
    requires NoClash(topo.devices.Keys, topo.vfDevices.Keys) && |pfs| + |vfs| <= i < |devices|
    ensures devices[i].address !in topo.devices && devices[i].address !in topo.vfDevices
  {
    var a, missing := devices[i].address, AllMissing(again, topo.vfDevices.Keys);
    assert AddressesOf(devices)[i] == a && missing[i - |pfs| - |vfs|] == a;
    MissingOf(again, topo.devices.Keys, topo.vfDevices.Keys, a);
  }

  /** On s390x nothing is generated: the list is the PFs and the VFs, each once. */
  lemma NothingIsGeneratedOnS390x(devices: seq<PciDevice>, topo: Pcitopo, numa: map<Address, string>)
    requires Lists(devices, topo, numa, true)
    ensures |devices| == |topo.devices| + |topo.vfDevices|
    ensures forall a :: a in AddressesOf(devices) <==> a in topo.devices || a in topo.vfDevices
  {
    var pfs, vfs, again :| ListsInOrder(devices, topo, numa, true, pfs, vfs, again);
    WalkLength(pfs, topo.devices.Keys);
    WalkLength(vfs, topo.vfDevices.Keys);
    assert |AddressesOf(devices)| == |pfs| + |vfs|;
    assert AddressesOf(devices) == pfs + vfs;
  }

  /** From topology to table: a canonical topology with PFs at function 0 and PF and VF keys apart is tabulated
      one entry per offered address, each under its own name, with distinct indices from 0 to n - 1. */
  lemma CanonicalTopologyIsTabulated(
      devices: seq<PciDevice>, topo: Pcitopo, numa: map<Address, string>, table: map<string, Entry>)
    requires Lists(devices, topo, numa, false) && TabulatesUpTo(table, devices, |devices|)
    requires topo.devices.Keys !! topo.vfDevices.Keys
    requires forall a | a in topo.devices :: IsCanonical(a) && a[|a| - 1] == '0'
    requires forall a | a in topo.vfDevices :: IsCanonical(a)
    ensures IndexesExactly(table, AddressesOf(devices))
    ensures forall a :: a in AddressesOf(devices) <==> IsOffered(topo, a)
  {
    ListedAddresses(devices, topo, numa);
    ListedAddressesAreCanonical(devices, topo);
    TableIndexesAddresses(table, devices);
  }
}
