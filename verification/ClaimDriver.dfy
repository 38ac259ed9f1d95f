/** The driver process that carries the claim protocol out: DeviceState and its CDI handler as objects that
    change the checkpoint, the specs and the folders in place, one write after the other. The ghost history
    shows that whatever they do is a run of the protocol, so every crash point is a protocol state. */
module ClaimDriver {
  import opened ClaimProtocol
  import opened Wrappers

  const DRIVER_NAME := "spyre.ibm.com"

  datatype DeviceResult = DeviceResult(driver: string, request: string, pool: string, device: string)

  datatype ResourceClaim = ResourceClaim(uid: Claim, allocation: Option<seq<DeviceResult>>)

  datatype AllocatableDevice = AllocatableDevice(pciAddress: string, isVf: bool)

  /** Which writes of a Prepare succeed. */
  datatype PrepareFaults = PrepareFaults(
    folderOk: bool, configOk: bool, metricsOk: bool, specOk: bool, checkpointOk: bool)
  {
    /** The folders and the spec get written. */
    predicate SpecWritten() {
      folderOk && configOk && metricsOk && specOk
    }

    /** The folders that exist when the writes stop at the first failure. */
    function FoldersMade(id: Uuid): set<Folder> {
      if !folderOk then {}
      else if configOk && metricsOk then {ConfigFolder(id), MetricsFolder(id)}
      else {ConfigFolder(id)}
    }
  }

  /** Which steps of an Unprepare succeed; removeOk answers for each mount of the spec. */
  datatype UnprepareFaults = UnprepareFaults(readOk: bool, removeOk: nat -> bool, checkpointOk: bool, specOk: bool)

  /** The folders that DeleteConfigFile removes for these mounts. */
  ghost function RemovedFolders(mounts: seq<Mount>, removeOk: nat -> bool): set<Folder> {
    set i: nat | i < |mounts| && IsHostMounted(mounts[i].container) && removeOk(i) :: mounts[i].host
  }

  /** The folders that the cleaner removes for an entry: an unmounted config folder and the metrics folder of its
      name. */
  ghost function ZombiesAt(mounted: set<Folder>, entry: Uuid, removeOk: Folder -> bool): set<Folder> {
    set f | f in {ConfigFolder(entry), MetricsFolder(entry)} && ConfigFolder(entry) !in mounted && removeOk(f)
  }

  ghost function Zombies(mounted: set<Folder>, entries: set<Uuid>, removeOk: Folder -> bool): set<Folder> {
    set u, f | u in entries && f in ZombiesAt(mounted, u, removeOk) :: f
  }

  lemma ZombiesOneMore(mounted: set<Folder>, entries: set<Uuid>, u: Uuid, removeOk: Folder -> bool)
    ensures Zombies(mounted, entries + {u}, removeOk) ==
            Zombies(mounted, entries, removeOk) + ZombiesAt(mounted, u, removeOk)
  {
  }

  /** The claim is allocated and every device of this driver is known. */
  ghost predicate Preparable(claim: ResourceClaim, allocatable: map<string, AllocatableDevice>) {
    && claim.allocation.Some?
    && forall j | 0 <= j < |claim.allocation.value| && claim.allocation.value[j].driver == DRIVER_NAME ::
         claim.allocation.value[j].device in allocatable
  }

  /** idx lists, in order, the positions below n at which this driver's devices stand. */
  ghost predicate PicksOurs(results: seq<DeviceResult>, n: nat, idx: seq<nat>)
    requires n <= |results|
  {
    && (forall i | 0 <= i < |idx| :: idx[i] < n)
    && (forall i, k | 0 <= i < k < |idx| :: idx[i] < idx[k])
    && forall j: nat | j < n :: j in idx <==> results[j].driver == DRIVER_NAME
  }

  /** The i-th device carries the request, pool and name of the result at idx[i], and the address and kind of its
      allocatable entry. */
  ghost predicate DescribesEach(
      devices: seq<PreparedDevice>, results: seq<DeviceResult>, idx: seq<nat>,
      allocatable: map<string, AllocatableDevice>)
  {
    && |devices| == |idx|
    && forall i | 0 <= i < |idx| ::
         && idx[i] < |results| && results[idx[i]].device in allocatable
         && devices[i].requestName == results[idx[i]].request
         && devices[i].poolName == results[idx[i]].pool
         && devices[i].deviceName == results[idx[i]].device
         && devices[i].pciAddress == allocatable[results[idx[i]].device].pciAddress
         && devices[i].isVf == allocatable[results[idx[i]].device].isVf
  }

  /** One prepared device for each device of this driver, in allocation order. */
  ghost predicate PreparedFrom(
      devices: seq<PreparedDevice>, claim: ResourceClaim, allocatable: map<string, AllocatableDevice>)
  {
    && claim.allocation.Some?
    && exists idx ::
         && PicksOurs(claim.allocation.value, |claim.allocation.value|, idx)
         && DescribesEach(devices, claim.allocation.value, idx, allocatable)
  }

  /** Devices of other drivers are skipped, whatever their names; an unknown device of this driver is an error. */
  method PrepareDevices(claim: ResourceClaim, allocatable: map<string, AllocatableDevice>)
    returns (r: Result<seq<PreparedDevice>>)
    ensures r.Ok? <==> Preparable(claim, allocatable)
    ensures r.Ok? ==> PreparedFrom(r.value, claim, allocatable)
    ensures r.Err? <==>
              || claim.allocation.None?
              || exists j ::
                   && 0 <= j < |claim.allocation.value|
                   && claim.allocation.value[j].driver == "spyre.ibm.com"
                   && claim.allocation.value[j].device !in allocatable
    ensures r.Ok? ==>
              exists idx: seq<nat> ::
                && |idx| == |r.value|
                && (forall i, k | 0 <= i < k < |idx| :: idx[i] < idx[k])
                && (forall j: nat :: j in idx <==>
                      j < |claim.allocation.value| && claim.allocation.value[j].driver == "spyre.ibm.com")
                && forall i | 0 <= i < |idx| ::
                     && idx[i] < |claim.allocation.value|
                     && claim.allocation.value[idx[i]].device in allocatable
                     && var result := claim.allocation.value[idx[i]];
                        r.value[i] == PreparedDevice(
                          result.request, result.pool, result.device,
                          allocatable[result.device].pciAddress, allocatable[result.device].isVf)
  {
    if claim.allocation.None? {
      return Err;
    }
    var results := claim.allocation.value;
    var prepared: seq<PreparedDevice> := [];
    ghost var idx: seq<nat> := [];
    for i := 0 to |results|
      invariant PicksOurs(results, i, idx) && DescribesEach(prepared, results, idx, allocatable)
      invariant forall j | 0 <= j < i && results[j].driver == DRIVER_NAME :: results[j].device in allocatable
    {
      if results[i].driver != DRIVER_NAME {
        continue;
      }
      if results[i].device !in allocatable {
        return Err;
      }
      var result, a := results[i], allocatable[results[i].device];
      prepared := prepared + [PreparedDevice(result.request, result.pool, result.device, a.pciAddress, a.isVf)];
      idx := idx + [i];
    }
    r := Ok(prepared);
  }

  /** A preparable claim determines its prepared devices. */
  lemma PreparedDevicesAreUnique(
      devices: seq<PreparedDevice>, others: seq<PreparedDevice>, claim: ResourceClaim,
      allocatable: map<string, AllocatableDevice>)
    requires PreparedFrom(devices, claim, allocatable) && PreparedFrom(others, claim, allocatable)
    ensures devices == others
  {
    var results := claim.allocation.value;
    var p :| PicksOurs(results, |results|, p) && DescribesEach(devices, results, p, allocatable);
    var q :| PicksOurs(results, |results|, q) && DescribesEach(others, results, q, allocatable);
    PicksAreUnique(results, |results|, p, q);
    forall i | 0 <= i < |p| ensures devices[i] == others[i] {
      assert p[i] == q[i];
    }
  }

  lemma {:induction false} PicksAreUnique(results: seq<DeviceResult>, n: nat, p: seq<nat>, q: seq<nat>)
    requires n <= |results| && PicksOurs(results, n, p) && PicksOurs(results, n, q)
    ensures p == q
  {
    if n > 0 {
      var last := n - 1;
      if results[last].driver == DRIVER_NAME {
        var r := WithoutLast(results, n, p);
        var s := WithoutLast(results, n, q);
        PicksAreUnique(results, last, r, s);
      } else {
        assert last !in p && last !in q;
        assert PicksOurs(results, last, p) by { assert forall i | 0 <= i < |p| :: p[i] in p; }
        assert PicksOurs(results, last, q) by { assert forall i | 0 <= i < |q| :: q[i] in q; }
        PicksAreUnique(results, last, p, q);
      }
    } else {
      IncreasingFits(p, n);
      IncreasingFits(q, n);
    }
  }

  lemma {:induction false} IncreasingFits(p: seq<nat>, n: nat)
    requires forall i | 0 <= i < |p| :: p[i] < n
    requires forall i, k | 0 <= i < k < |p| :: p[i] < p[k]
    ensures |p| <= n
  {
    if p != [] { IncreasingFits(p[..|p| - 1], p[|p| - 1]); }
  }

  lemma WithoutLast(results: seq<DeviceResult>, n: nat, p: seq<nat>) returns (init: seq<nat>)
    requires 0 < n <= |results| && PicksOurs(results, n, p) && results[n - 1].driver == DRIVER_NAME
    ensures p == init + [n - 1] && PicksOurs(results, n - 1, init)
  {
    assert n - 1 in p;
    var last := |p| - 1;
    var k :| 0 <= k < |p| && p[k] == n - 1;
    assert p[k] <= p[last] < n;
    init := p[..last];
    assert p == init + [n - 1];
    forall j: nat | j < n - 1 ensures j in init <==> j in p {
      if i :| 0 <= i < |p| && p[i] == j { assert init[i] == j; }
    }
  }

  lemma {:induction false} LeadsOneMore(s: State, acts: seq<Action>, t: State, a: Action)
    requires Leads(s, acts, t) && Enabled(t, a)
    ensures Leads(s, acts + [a], Step(t, a))
    decreases |acts|
  {
    if acts == [] {
      assert [] + [a] == [a] && [a][1..] == [];
      assert Leads(Step(s, a), [], Step(t, a));
    } else {
      LeadsOneMore(Step(s, acts[0]), acts[1..], t, a);
      assert (acts + [a])[1..] == acts[1..] + [a];
    }
  }

  /** A process that dies after any of its writes leaves a state from which the next one can be constructed. */
  lemma {:induction false} CrashAnywhere(s: State, acts: seq<Action>, t: State, k: nat) returns (m: State)
    requires Leads(s, acts, t) && k <= |acts|
    ensures Leads(s, acts[..k], m) && Leads(s, acts[..k] + [Crash], Step(m, Crash)) && Step(m, Crash).op.Down?
    decreases |acts|
  {
    if k == 0 {
      m := s;
      assert acts[..0] == [] && Leads(s, acts[..0], s);
      LeadsOneMore(s, acts[..0], s, Crash);
    } else {
      m := CrashAnywhere(Step(s, acts[0]), acts[1..], t, k - 1);
      assert acts[..k][0] == acts[0] && acts[..k][1..] == acts[1..][..k - 1];
      LeadsOneMore(s, acts[..k], m, Crash);
    }
  }

  /** Of the two folders of a claim, Unprepare removes those whose removal succeeds. */
  lemma RemovedFoldersAre(id: Uuid, removeOk: nat -> bool, f: Folder)
    ensures f in RemovedFolders(StandardMounts(id), removeOk) <==>
              (f == ConfigFolder(id) && removeOk(0)) || (f == MetricsFolder(id) && removeOk(1))
  {
    var mounts := StandardMounts(id);
    assert mounts[0].host == ConfigFolder(id) && mounts[1].host == MetricsFolder(id);
  }

  /** What a restart removes, in terms of the disk: a folder whose removal succeeds, whose name is that of a config
      folder, when no readable spec mounts that config folder. */
  lemma ZombiesAre(d: Disk, skipped: set<Claim>, removeOk: Folder -> bool, f: Folder)
    ensures f in Zombies(MountedFolders(d.specs - skipped), ConfigIds(d.folders), removeOk) <==>
              && ConfigFolder(f.id) in d.folders && removeOk(f)
              && !exists c, m :: c in d.specs && c !in skipped && m in d.specs[c].mounts && m.host == ConfigFolder(f.id)
  {
    MountedByRead(d.specs, skipped);
    assert f.id in ConfigIds(d.folders) <==> ConfigFolder(f.id) in d.folders by {
      assert ConfigFolder(f.id).id == f.id;
    }
    var mounted := MountedFolders(d.specs - skipped);
    assert f in ZombiesAt(mounted, f.id, removeOk) <==> ConfigFolder(f.id) !in mounted && removeOk(f);
  }

  /** A Prepare whose writes stop leaves the folders that were made by then. */
  lemma FoldersMadeAre(faults: PrepareFaults, id: Uuid, f: Folder)
    ensures f in faults.FoldersMade(id) <==>
              || (f == ConfigFolder(id) && faults.folderOk)
              || (f == MetricsFolder(id) && faults.folderOk && faults.configOk && faults.metricsOk)
  {
  }

  lemma RemovedOneMore(mounts: seq<Mount>, i: nat, removeOk: nat -> bool)
    requires i < |mounts|
    ensures RemovedFolders(mounts[..i + 1], removeOk) == RemovedFolders(mounts[..i], removeOk)
              + if IsHostMounted(mounts[i].container) && removeOk(i) then {mounts[i].host} else {}
  {
    var one, two := mounts[..i], mounts[..i + 1];
    assert forall k: nat | k < i :: one[k] == two[k];
    assert two[i] == mounts[i];
  }

  lemma MountedByRead(specs: map<Claim, Spec>, skipped: set<Claim>)
    ensures MountedFolders(specs - skipped) ==
            set c, m | c in specs && c !in skipped && m in specs[c].mounts :: m.host
  {
    forall f | f in MountedFolders(specs - skipped)
      ensures exists c, m :: c in specs && c !in skipped && m in specs[c].mounts && m.host == f
    {
      var c, m :| c in specs - skipped && m in (specs - skipped)[c].mounts && m.host == f;
      assert c in specs && m in specs[c].mounts;
    }
    forall c, m | c in specs && c !in skipped && m in specs[c].mounts
      ensures m.host in MountedFolders(specs - skipped)
    {
      assert c in specs - skipped && m in (specs - skipped)[c].mounts;
    }
  }

  class DeviceState {
    const allocatable: map<string, AllocatableDevice>
    var checkpoint: Checkpoint
    var specs: map<Claim, Spec>
    var folders: set<Folder>
    ghost var state: State          // the protocol state of this node
    ghost var history: seq<Action>  // everything that has happened to its disk

    ghost predicate Valid()
      reads this
    {
      && state.disk == Disk(checkpoint, specs, folders)
      && Leads(Init(), history, state)
    }

    /** A new process on the disk that earlier ones have left; on a new node nothing has happened yet. */
    constructor (allocatable: map<string, AllocatableDevice>, disk: Disk, ghost past: seq<Action>, ghost s: State)
      requires Leads(Init(), past, s) && s.op.Down? && s.disk == disk
      ensures Valid() && state == s && history == past && this.allocatable == allocatable
    {
      this.allocatable := allocatable;
      checkpoint, specs, folders := disk.checkpoint, disk.specs, disk.folders;
      state, history := s, past;
    }

    /** Records an action whose effect on the disk has just been carried out. */
    ghost method Record(a: Action)
      requires Leads(Init(), history, state) && Enabled(state, a)
      requires Step(state, a).disk == Disk(checkpoint, specs, folders)
      modifies `state, `history
      ensures Valid() && state == Step(old(state), a) && history == old(history) + [a]
    {
      LeadsOneMore(Init(), history, state, a);
      history := history + [a];
      state := Step(state, a);
    }

    /** Prepare: the claim's devices when it is held already, else folders, spec and checkpoint in this order.
        A failed write ends the call with an error and leaves what was written before it. */
    method Prepare(claim: ResourceClaim, newId: Uuid, faults: PrepareFaults) returns (r: Result<seq<PreparedDevice>>)
      requires Valid() && state.op.Idle? && newId !in state.used
      modifies this
      ensures Valid() && state.op.Idle? && old(history) <= history
      ensures old(Holds(checkpoint, claim.uid)) ==>
                r == Ok(old(checkpoint[claim.uid])) && old(state) == state
      ensures !old(Holds(checkpoint, claim.uid)) ==>
                && (r.Ok? <==> Preparable(claim, allocatable) && faults.SpecWritten() && faults.checkpointOk)
                && (r.Ok? ==> PreparedFrom(r.value, claim, allocatable))
                && checkpoint == (if r.Ok? then old(checkpoint)[claim.uid := r.value] else old(checkpoint))
                && folders == old(folders) + (if Preparable(claim, allocatable) then faults.FoldersMade(newId) else {})
                && (!(Preparable(claim, allocatable) && faults.SpecWritten()) ==> specs == old(specs))
                && (Preparable(claim, allocatable) && faults.SpecWritten() ==>
                      exists devices | PreparedFrom(devices, claim, allocatable) ::
                        specs == old(specs)[claim.uid := Spec(Names(devices), StandardMounts(newId))])
                && (r.Ok? ==> specs == old(specs)[claim.uid := Spec(Names(r.value), StandardMounts(newId))])
    {
      if Holds(checkpoint, claim.uid) {
        Record(BeginPrepare(claim.uid, []));
        return Ok(checkpoint[claim.uid]);
      }
      var prepared := PrepareDevices(claim, allocatable);
      if prepared.Err? {
        return Err;
      }
      var devices := prepared.value;
      var cp := checkpoint;
      Record(BeginPrepare(claim.uid, devices));
      var created := CreateClaimSpecFile(claim.uid, devices, newId, faults);
      if !created {
        return Err;
      }
      if !faults.checkpointOk {
        Record(WriteCheckpoint(false));
        return Err;
      }
      checkpoint := cp[claim.uid := devices];
      Record(WriteCheckpoint(true));
      r := Ok(devices);
    }

    /** CreateClaimSpecFile: the folders to mount, then the CDI spec that mounts them. */
    method CreateClaimSpecFile(c: Claim, devices: seq<PreparedDevice>, newId: Uuid, faults: PrepareFaults)
      returns (created: bool)
      requires Valid() && state.op == PrepFolder(c, devices, checkpoint) && newId !in state.used
      modifies this
      ensures Valid() && old(history) <= history && checkpoint == old(checkpoint)
      ensures created <==> faults.SpecWritten()
      ensures state.op == if created then PrepCommit(c, devices, checkpoint) else Idle
      ensures specs == if created then old(specs)[c := Spec(Names(devices), StandardMounts(newId))] else old(specs)
      ensures folders == old(folders) + faults.FoldersMade(newId)
    {
      var mounted := GetConfigMetricsMount(c, devices, newId, faults);
      if !mounted {
        return false;
      }
      if !faults.specOk {
        Record(WriteSpec(false));
        return false;
      }
      specs := specs[c := Spec(Names(devices), StandardMounts(newId))];
      Record(WriteSpec(true));
      created := true;
    }

    /** GetConfigMetricsMount: config folder, config file, metrics folder of the same name. */
    method GetConfigMetricsMount(ghost c: Claim, ghost devices: seq<PreparedDevice>, newId: Uuid, faults: PrepareFaults)
      returns (mounted: bool)
      requires Valid() && state.op == PrepFolder(c, devices, checkpoint) && newId !in state.used
      modifies this
      ensures Valid() && old(history) <= history && checkpoint == old(checkpoint) && specs == old(specs)
      ensures mounted <==> faults.folderOk && faults.configOk && faults.metricsOk
      ensures state.op == if mounted then PrepSpec(c, devices, checkpoint, newId) else Idle
      ensures folders == old(folders) + faults.FoldersMade(newId)
    {
      if !faults.folderOk {
        Record(MakeConfig(newId, false));
        return false;
      }
      folders := folders + {ConfigFolder(newId)};
      Record(MakeConfig(newId, true));
      Record(WriteConfig(faults.configOk));
      if !faults.configOk {
        return false;
      }
      if faults.metricsOk {
        folders := folders + {MetricsFolder(newId)};
      }
      Record(MakeMetrics(faults.metricsOk));
      mounted := faults.metricsOk;
    }

    /** Unprepare: the folders the spec mounts, then the checkpoint, then the spec. */
    method Unprepare(c: Claim, faults: UnprepareFaults) returns (ok: bool)
      requires Valid() && state.op.Idle?
      modifies this
      ensures Valid() && state.op.Idle? && old(history) <= history
      ensures !old(Holds(checkpoint, c)) ==> ok && old(state) == state
      ensures old(Holds(checkpoint, c)) ==> (ok <==> faults.checkpointOk && faults.specOk)
      ensures old(Holds(checkpoint, c)) ==>
                && checkpoint == (if faults.checkpointOk then old(checkpoint) - {c} else old(checkpoint))
                && specs == (if ok then old(specs) - {c} else old(specs))
      ensures folders == if old(Holds(checkpoint, c) && c in specs) && faults.readOk
                         then old(folders) - RemovedFolders(old(specs)[c].mounts, faults.removeOk) else old(folders)
    {
      if !Holds(checkpoint, c) {
        Record(BeginUnprepare(c));
        return true;
      }
      Record(BeginUnprepare(c));
      UnprepareDevices(c, faults);
      ok := CommitUnprepare(c, faults);
    }

    /** The claim leaves the checkpoint before its spec is deleted. */
    method CommitUnprepare(c: Claim, faults: UnprepareFaults) returns (ok: bool)
      requires Valid() && state.op == UnprepRemove(c, checkpoint, [])
      modifies this
      ensures Valid() && state.op.Idle? && old(history) <= history
      ensures ok <==> faults.checkpointOk && faults.specOk
      ensures checkpoint == (if faults.checkpointOk then old(checkpoint) - {c} else old(checkpoint))
      ensures specs == (if ok then old(specs) - {c} else old(specs))
      ensures folders == old(folders)
    {
      if !faults.checkpointOk {
        Record(WriteCheckpoint(false));
        return false;
      }
      checkpoint := checkpoint - {c};
      Record(WriteCheckpoint(true));
      if !faults.specOk {
        Record(RemoveSpec(false));
        return false;
      }
      specs := specs - {c};
      Record(RemoveSpec(true));
      ok := true;
    }

    /** unprepareDevices and DeleteConfigFile: a spec that cannot be read only costs the removal. */
    method UnprepareDevices(c: Claim, faults: UnprepareFaults)
      requires Valid() && state.op == UnprepRead(c, checkpoint)
      modifies this
      ensures Valid() && old(history) <= history
      ensures state.op == UnprepRemove(c, checkpoint, [])
      ensures checkpoint == old(checkpoint) && specs == old(specs)
      ensures folders == if c in specs && faults.readOk
                         then old(folders) - RemovedFolders(specs[c].mounts, faults.removeOk) else old(folders)
    {
      Record(ReadSpec(faults.readOk));
      if !faults.readOk || c !in specs {
        return;
      }
      var mounts := specs[c].mounts;
      for i := 0 to |mounts|
        invariant Valid() && old(history) <= history
        invariant checkpoint == old(checkpoint) && specs == old(specs)
        invariant state.op == UnprepRemove(c, checkpoint, mounts[i..])
        invariant folders == old(folders) - RemovedFolders(mounts[..i], faults.removeOk)
      {
        assert mounts[i..][1..] == mounts[i + 1..] && mounts[i..][0] == mounts[i];
        RemovedOneMore(mounts, i, faults.removeOk);
        if IsHostMounted(mounts[i].container) && faults.removeOk(i) {
          folders := folders - {mounts[i].host};
        }
        Record(RemoveMount(faults.removeOk(i)));
      }
      assert mounts[..|mounts|] == mounts;
    }

    /** The restart of the process: CleanZombieConfigFolders over the specs and the config folders it finds. A spec
        that cannot be read is skipped, so that its folders count as unmounted. When a directory cannot be walked,
        cleaning is skipped with a warning. */
    method NewDeviceState(walkOk: bool, skipped: set<Claim>, removeOk: Folder -> bool)
      requires Valid() && state.op.Down?
      modifies this
      ensures Valid() && state.op.Idle? && old(history) <= history
      ensures checkpoint == old(checkpoint) && specs == old(specs)
      ensures folders == old(folders) -
                if walkOk then Zombies(MountedFolders(specs - skipped), ConfigIds(old(folders)), removeOk) else {}
    {
      if !walkOk {
        Record(Restart(false, skipped));
        return;
      }
      var existingMounts := CollectMounts(skipped);
      var entries := ConfigIds(folders);
      Record(Restart(true, skipped));
      ghost var done: set<Uuid> := {};
      assert Zombies(existingMounts, done, removeOk) == {};
      while entries != {}
        invariant Valid() && old(history) <= history
        invariant checkpoint == old(checkpoint) && specs == old(specs)
        invariant entries + done == ConfigIds(old(folders))
        invariant state.op == Cleaning(existingMounts, skipped, entries)
        invariant folders == old(folders) - Zombies(existingMounts, done, removeOk)
        decreases entries
      {
        var entry :| entry in entries;
        CleanEntry(existingMounts, skipped, entries, entry, removeOk);
        ZombiesOneMore(existingMounts, done, entry, removeOk);
        entries := entries - {entry};
        done := done + {entry};
      }
      assert done == ConfigIds(old(folders));
      Record(CleanDone);
    }

    /** One entry of the config directory: when no spec mounts it, it goes, and the metrics folder of its name. */
    method CleanEntry(mounted: set<Folder>, ghost skipped: set<Claim>, ghost entries: set<Uuid>, entry: Uuid,
        removeOk: Folder -> bool)
      requires Valid() && state.op == Cleaning(mounted, skipped, entries) && entry in entries
      modifies this
      ensures Valid() && old(history) <= history
      ensures state.op == Cleaning(mounted, skipped, entries - {entry})
      ensures checkpoint == old(checkpoint) && specs == old(specs)
      ensures folders == old(folders) - ZombiesAt(mounted, entry, removeOk)
    {
      var config, metrics := ConfigFolder(entry), MetricsFolder(entry);
      if config in mounted {
        Record(CleanConfig(entry, true));
        return;
      }
      if removeOk(config) {
        folders := folders - {config};
      }
      Record(CleanConfig(entry, removeOk(config)));
      if removeOk(metrics) {
        folders := folders - {metrics};
      }
      Record(CleanOther(removeOk(metrics)));
    }

    /** The walk over the CDI directory; a spec that cannot be read adds nothing. */
    method CollectMounts(skipped: set<Claim>) returns (existing: set<Folder>)
      ensures existing == MountedFolders(specs - skipped)
    {
      existing := {};
      var rest := specs.Keys;
      while rest != {}
        invariant rest <= specs.Keys
        invariant existing == set c, m | c in specs && c !in skipped + rest && m in specs[c].mounts :: m.host
        decreases rest
      {
        var c :| c in rest;
        if c !in skipped {
          var hosts := set m | m in specs[c].mounts :: m.host;
          existing := existing + hosts;
        }
        rest := rest - {c};
      }
      MountedByRead(specs, skipped);
    }
  }
}
